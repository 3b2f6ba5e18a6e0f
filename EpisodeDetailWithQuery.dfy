/** The button variant of the episode resolver
    (`src/components/streaming/EpisodeDetailWithQuery.tsx`): one button
    per server, a map of resolved URLs kept in component state, and one
    resolve request per click on a server that has none. */
module EpisodeDetailWithQuery {
  import opened Wrappers
  import opened Text
  import opened Http
  import opened ServerIds
  import opened ApiClient

  /** A server button's item. `href` is read by the component although
      the type it imports does not declare it. */
  datatype ServerItem = ServerItem(title: string, serverId: string, href: string)

  /** The href starts with `http://` or `https://`, in any letter case. */
  predicate IsAbsoluteHttp(href: string) {
    MatchesAt(href, "http://", 0) || MatchesAt(href, "https://", 0)
  }

  // ---------------------------------------------------------------------
  // getServerId

  /** A `/server/` at `i` followed by a character other than `/`: where
      the pattern `/server/` plus one or more non-slashes can match. */
  predicate SegmentAt(s: string, i: nat) {
    MarkAt(s, i) && i + |Mark| < |s| && s[i + |Mark|] != '/'
  }

  /** The end of the run of non-slash characters starting at `i`. */
  function SegmentEnd(s: string, i: nat): (e: nat)
    requires i <= |s|
    ensures i <= e <= |s|
    ensures forall k :: i <= k < e ==> s[k] != '/'
    ensures e < |s| ==> s[e] == '/'
    decreases |s| - i
  {
    if i == |s| || s[i] == '/' then i else SegmentEnd(s, i + 1)
  }

  /** The leftmost position, at or after `i`, where the pattern matches. */
  function FirstSegmentFrom(s: string, i: nat): (r: Option<nat>)
    requires i <= |s|
    ensures r.Some? ==> i <= r.value && SegmentAt(s, r.value)
    ensures r.Some? ==> forall j: nat :: i <= j < r.value ==> !SegmentAt(s, j)
    ensures r.None? ==> forall j: nat :: i <= j ==> !SegmentAt(s, j)
    decreases |s| - i
  {
    if i == |s| then None
    else if SegmentAt(s, i) then Some(i)
    else FirstSegmentFrom(s, i + 1)
  }

  /** `getServerId`: the item's `serverId` for an absolute http(s) link;
      otherwise the slash-free segment after the first `/server/` that has
      one, or `serverId` when there is none. */
  function GetServerId(item: ServerItem): string {
    if IsAbsoluteHttp(item.href) then item.serverId
    else match FirstSegmentFrom(item.href, 0)
      case Some(i) => item.href[i + |Mark|..SegmentEnd(item.href, i + |Mark|)]
      case None => item.serverId
  }

  /** Every outcome of `getServerId`: the item's own id for an absolute
      link or a link where the pattern does not match; otherwise, for the
      leftmost `i` where it matches, the maximal run of non-slashes after
      that `/server/`, which is never empty. */
  lemma GetServerIdSpec(item: ServerItem)
    ensures IsAbsoluteHttp(item.href) ==> GetServerId(item) == item.serverId
    ensures !IsAbsoluteHttp(item.href) && (forall j: nat :: !SegmentAt(item.href, j)) ==>
      GetServerId(item) == item.serverId
    ensures forall i: nat ::
      (!IsAbsoluteHttp(item.href) && SegmentAt(item.href, i) && (forall j: nat :: j < i ==> !SegmentAt(item.href, j))) ==>
        var e := SegmentEnd(item.href, i + |Mark|);
        GetServerId(item) == item.href[i + |Mark|..e] && e > i + |Mark|
  {
    var found := FirstSegmentFrom(item.href, 0);
    forall i: nat | SegmentAt(item.href, i) && (forall j: nat :: j < i ==> !SegmentAt(item.href, j))
      ensures found == Some(i)
    {
    }
  }

  /** A relative link `prefix/server/id...`, whose prefix has no slash,
      yields `id`: the segment runs to the next slash or the end. */
  lemma {:induction false} ServerIdFromPath(title: string, serverId: string, prefix: string, id: string, rest: string)
    requires forall k :: 0 <= k < |prefix| ==> prefix[k] != '/'
    requires id != [] && forall k :: 0 <= k < |id| ==> id[k] != '/'
    requires rest == [] || rest[0] == '/'
    requires !IsAbsoluteHttp(prefix + Mark + id + rest)
    ensures GetServerId(ServerItem(title, serverId, prefix + Mark + id + rest)) == id
  {
    var s := prefix + Mark + id + rest;
    var p := |prefix|;
    var start := p + |Mark|;
    assert forall k :: 0 <= k < p ==> s[k] == prefix[k];
    assert s[p..start] == Mark;
    assert forall k :: start <= k < start + |id| ==> s[k] == id[k - start];
    assert start + |id| < |s| ==> s[start + |id|] == rest[0];
    SegmentIs(ServerItem(title, serverId, s), p, |id|);
    assert s[start..start + |id|] == id;
  }

  /** When the href has no slash before a `/server/` at `p`, followed by
      `n > 0` non-slashes and then a slash or the end, those `n`
      characters are the id. */
  lemma SegmentIs(item: ServerItem, p: nat, n: nat)
    requires !IsAbsoluteHttp(item.href)
    requires p + |Mark| + n <= |item.href| && n > 0
    requires forall k :: 0 <= k < p ==> item.href[k] != '/'
    requires item.href[p..p + |Mark|] == Mark
    requires forall k :: p + |Mark| <= k < p + |Mark| + n ==> item.href[k] != '/'
    requires p + |Mark| + n < |item.href| ==> item.href[p + |Mark| + n] == '/'
    ensures GetServerId(item) == item.href[p + |Mark|..p + |Mark| + n]
  {
    var s := item.href;
    forall j: nat | j < p
      ensures !SegmentAt(s, j)
    {
      if j + |Mark| <= |s| { MarkShape(s, j); }
    }
    assert MarkAt(s, p);
    assert s[p + |Mark|] != '/';
    assert SegmentAt(s, p);
    assert FirstSegmentFrom(s, 0) == Some(p);
    assert SegmentEnd(s, p + |Mark|) == p + |Mark| + n;
  }

  /** Case folding leaves a slash alone and makes none: where a pattern
      matching at the start has a slash, the text has one too. */
  lemma MatchedSlash(s: string, pat: string, i: nat)
    ensures MatchesAt(s, pat, 0) && i < |pat| && pat[i] == '/' ==> s[i] == '/'
  {
    if MatchesAt(s, pat, 0) && i < |pat| && pat[i] == '/' {
      assert LowerAscii(s[..|pat|][i]) == LowerAscii(pat[i]);
    }
  }

  /** A link `prefix/server/id...` with a slash-free prefix is not
      absolute: it has no `//` where the scheme would end. */
  lemma ServerPathIsRelative(prefix: string, id: string, rest: string)
    requires forall k :: 0 <= k < |prefix| ==> prefix[k] != '/'
    requires id != [] && id[0] != '/'
    ensures !IsAbsoluteHttp(prefix + Mark + id + rest)
  {
    var s := prefix + Mark + id + rest;
    var p := |prefix|;
    assert forall k :: 0 <= k < p ==> s[k] == prefix[k];
    assert forall k :: p <= k < p + |Mark| ==> s[k] == Mark[k - p];
    MatchedSlash(s, "http://", 5);
    MatchedSlash(s, "http://", 6);
    MatchedSlash(s, "https://", 6);
    MatchedSlash(s, "https://", 7);
  }

  /** On a link `prefix/server/id`, with or without a trailing slash and
      with a slash-free prefix, both resolvers pick the same id: the
      button variant's segment is what the select-box variant's
      normalisation keeps, and normalising it again changes nothing. */
  lemma {:induction false} ServerIdAgreesWithNormalize(title: string, serverId: string, prefix: string, id: string, trailingSlash: bool)
    requires forall k :: 0 <= k < |prefix| ==> prefix[k] != '/' && !IsLineTerminator(prefix[k])
    requires id != [] && forall k :: 0 <= k < |id| ==> id[k] != '/' && !IsLineTerminator(id[k])
    requires trailingSlash ==> !SameIgnoringCase(id, "server")
    ensures var href := prefix + Mark + id + (if trailingSlash then "/" else "");
      && GetServerId(ServerItem(title, serverId, href)) == id
      && NormalizeServerId(href) == id
      && NormalizeServerId(GetServerId(ServerItem(title, serverId, href))) == id
  {
    var tail := if trailingSlash then "/" else "";
    ServerPathIsRelative(prefix, id, tail);
    ServerIdFromPath(title, serverId, prefix, id, tail);
    NormalizeServerPath(prefix, id, trailingSlash);
    NormalizePlainId(id);
  }

  // ---------------------------------------------------------------------
  // What the page shows

  /** `resolvedUrls[id]` is truthy. */
  predicate HasUrl(urls: map<string, string>, id: string) {
    id in urls && urls[id] != ""
  }

  /** The iframe's `src`: the default stream without a selection, the
      selection's resolved URL when it has one, and the default stream
      again when it has none. */
  function FrameSrc(selected: Option<string>, urls: map<string, string>, defaultUrl: string): (r: string)
    ensures selected.None? ==> r == defaultUrl
    ensures selected.Some? && HasUrl(urls, selected.value) ==> r == urls[selected.value] && r != ""
    ensures selected.Some? && !HasUrl(urls, selected.value) ==> r == defaultUrl
  {
    match selected
    case None => defaultUrl
    case Some(id) => if HasUrl(urls, id) then urls[id] else defaultUrl
  }

  /** The iframe is hidden: a server is selected that has no URL. */
  predicate FrameHidden(selected: Option<string>, urls: map<string, string>) {
    selected.Some? && !HasUrl(urls, selected.value)
  }

  /** The "Memuat server…" text shows: the frame is hidden and the
      selection is the server being loaded. */
  predicate LoadingShown(selected: Option<string>, urls: map<string, string>, loading: Option<string>) {
    FrameHidden(selected, urls) && loading == selected
  }

  /** A server's button is disabled while that server is loading. */
  predicate ButtonDisabled(loading: Option<string>, id: string) {
    loading == Some(id)
  }

  /** Whenever the selection has a URL and every stored URL is non-empty,
      the frame shows that URL and the loading text is not shown,
      whatever is loading. */
  lemma ResolvedSelectionShows(selected: Option<string>, urls: map<string, string>, loading: Option<string>, defaultUrl: string)
    requires forall id :: id in urls ==> urls[id] != ""
    requires selected.Some? ==> selected.value in urls
    ensures !FrameHidden(selected, urls) && !LoadingShown(selected, urls, loading)
    ensures FrameSrc(selected, urls, defaultUrl) == if selected.Some? then urls[selected.value] else defaultUrl
  {
  }

  // ---------------------------------------------------------------------
  // The component's state

  /** What a click did: changed the selection at once, or issued the
      resolve request (to this URL, or to none when the client has no
      base or secret; the call still settles). */
  datatype Click = Selected | Requested(url: Option<string>)

  class EpisodePlayer {
    const defaultStreamingUrl: string
    const base: string
    const secret: string

    var selectedServerId: Option<string>
    var resolvedUrls: map<string, string>
    var loadingServerId: Option<string>
    /** The server whose resolve request is awaited. */
    var pending: Option<string>

    /** Only non-empty URLs are stored, a selected server always has one,
        and while a request is awaited its server is the loading one. */
    ghost predicate Valid()
      reads this
    {
      && (forall id :: id in resolvedUrls ==> resolvedUrls[id] != "")
      && (selectedServerId.Some? ==> selectedServerId.value in resolvedUrls)
      && (pending.Some? ==> loadingServerId == pending)
    }

    /** The initial state: no selection, no URLs, nothing loading. */
    constructor (defaultStreamingUrl: string, base: string, secret: string)
      ensures Valid()
      ensures this.defaultStreamingUrl == defaultStreamingUrl && this.base == base && this.secret == secret
      ensures selectedServerId.None? && resolvedUrls == map[] && loadingServerId.None? && pending.None?
    {
      this.defaultStreamingUrl, this.base, this.secret := defaultStreamingUrl, base, secret;
      selectedServerId, resolvedUrls, loadingServerId, pending := None, map[], None, None;
    }

    /** `handleClick` up to its `await`. An absolute link is selected and
        recorded as its server's URL; a server that already has a URL is
        selected; neither requests anything. Otherwise the server becomes
        the loading one and its URL is requested; the selection and the
        URLs stay. */
    method HandleClick(item: ServerItem) returns (click: Click)
      requires Valid()
      requires !ButtonDisabled(loadingServerId, GetServerId(item))
      requires pending.None? || IsAbsoluteHttp(item.href) || HasUrl(resolvedUrls, GetServerId(item))
      modifies this`selectedServerId, this`resolvedUrls, this`loadingServerId, this`pending
      ensures Valid()
      ensures var id := GetServerId(item);
        && (IsAbsoluteHttp(item.href) ==>
              click == Selected && selectedServerId == Some(id)
              && resolvedUrls == old(resolvedUrls)[id := item.href]
              && loadingServerId == old(loadingServerId) && pending == old(pending))
        && (!IsAbsoluteHttp(item.href) && HasUrl(old(resolvedUrls), id) ==>
              click == Selected && selectedServerId == Some(id) && resolvedUrls == old(resolvedUrls)
              && loadingServerId == old(loadingServerId) && pending == old(pending))
        && (!IsAbsoluteHttp(item.href) && !HasUrl(old(resolvedUrls), id) ==>
              click == Requested(RequestUrl(base, secret, ServerPath(id)))
              && loadingServerId == Some(id) && pending == Some(id)
              && selectedServerId == old(selectedServerId) && resolvedUrls == old(resolvedUrls))
    {
      var serverId := GetServerId(item);
      if IsAbsoluteHttp(item.href) {
        selectedServerId := Some(serverId);
        resolvedUrls := resolvedUrls[serverId := item.href];
        return Selected;
      }
      if HasUrl(resolvedUrls, serverId) {
        selectedServerId := Some(serverId);
        return Selected;
      }
      loadingServerId := Some(serverId);
      pending := Some(serverId);
      click := Requested(RequestUrl(base, secret, ServerPath(serverId)));
    }

    /** The rest of `handleClick`, as written, once the awaited call
        settles. A rejection ends the handler at the `await`, so the
        server stays the loading one and its button stays disabled.
        Otherwise loading ends, and a URL is recorded and selected; a
        `null` changes neither the selection nor the URLs. */
    method ReceiveReply(reply: Reply<UrlData>)
      requires Valid() && pending.Some?
      modifies this`selectedServerId, this`resolvedUrls, this`loadingServerId, this`pending
      ensures Valid() && pending.None?
      ensures var id := old(pending).value;
        var outcome := FetchServerUrlClient(id, base, secret, reply);
        && (outcome.Rejected? ==>
              loadingServerId == Some(id) && ButtonDisabled(loadingServerId, id)
              && selectedServerId == old(selectedServerId) && resolvedUrls == old(resolvedUrls))
        && (outcome == Resolved(None) ==>
              loadingServerId.None?
              && selectedServerId == old(selectedServerId) && resolvedUrls == old(resolvedUrls))
        && (outcome.Resolved? && outcome.value.Some? ==>
              loadingServerId.None? && selectedServerId == Some(id)
              && resolvedUrls == old(resolvedUrls)[id := outcome.value.value])
    {
      var serverId := pending.value;
      pending := None;
      var outcome := FetchServerUrlClient(serverId, base, secret, reply);
      if outcome.Rejected? {
        return;
      }
      loadingServerId := None;
      var url := outcome.value;
      if url.Some? && url.value != "" {
        resolvedUrls := resolvedUrls[serverId := url.value];
        selectedServerId := Some(serverId);
      }
    }

    /** The same step with the rejection caught and read as `null`: every
        reply ends the loading state, so no button stays disabled. */
    method ReceiveReplyCaught(reply: Reply<UrlData>)
      requires Valid() && pending.Some?
      modifies this`selectedServerId, this`resolvedUrls, this`loadingServerId, this`pending
      ensures Valid() && pending.None? && loadingServerId.None?
      ensures var id := old(pending).value;
        var url := ResolvedUrlOrNull(id, base, secret, reply);
        && (url.None? ==> selectedServerId == old(selectedServerId) && resolvedUrls == old(resolvedUrls))
        && (url.Some? ==> selectedServerId == Some(id) && resolvedUrls == old(resolvedUrls)[id := url.value])
    {
      var serverId := pending.value;
      pending := None;
      var url := ResolvedUrlOrNull(serverId, base, secret, reply);
      loadingServerId := None;
      if url.Some? && url.value != "" {
        resolvedUrls := resolvedUrls[serverId := url.value];
        selectedServerId := Some(serverId);
      }
    }
  }

  /** `fetchServerUrlClient` with its rejection read as `null`: a URL
      exactly when the call is made and the reply carries a non-empty
      `data.url`. */
  function ResolvedUrlOrNull(serverIdOrPath: string, base: string, secret: string, reply: Reply<UrlData>): (r: Option<string>)
    ensures r.Some? <==>
      Configured(base, secret) && ValidEnvelope(reply) && reply.body.data.value.url.Some? && reply.body.data.value.url.value != ""
    ensures r.Some? ==> r.value == reply.body.data.value.url.value && r.value != ""
  {
    match FetchServerUrlClient(serverIdOrPath, base, secret, reply)
    case Resolved(url) => url
    case Rejected => None
  }
}
