/** The episode page's server + quality selectors (a plain script driving
    two `<select>` elements and the player frame).

    Pure part: the quality sort key, the list of qualities a server
    offers, `findEntry`, the cache key, the frame label and the resolve
    call's outcome. Imperative part: the module-level `resolvedUrls`
    dictionary (class `UrlCache`, which outlives one `run()`), and the
    selector and frame state that `onServerChange`, `onQualityChange` and
    the resolve callback update (class `ServerQualitySelect`). A
    resolution is two steps: `OnQualityChange` issues the request, and
    `ReceiveReply` is the later completion. */
module EpisodeServerQuality {
  import opened Wrappers
  import opened Text
  import opened Http
  import opened ServerIds

  /** One row of the lookup table embedded in the page. */
  datatype LookupEntry = LookupEntry(
    serverName: string,
    quality: string,
    href: string,
    serverId: string,
    isDirect: bool)

  // ---------------------------------------------------------------------
  // Quality ordering

  /** The sort key of a quality label: all its digits, read together as
      one decimal number ("1080p60" gives 108060), or 0 when the label
      has no digit. */
  function QualityKey(text: string): nat {
    DecimalValue(Digits(text))
  }

  /** A label made of a rendered number and a digit-free suffix ("720p")
      sorts by that number. */
  lemma QualityKeyOfLabel(n: nat, suffix: string)
    requires forall i :: 0 <= i < |suffix| ==> !IsDigit(suffix[i])
    ensures QualityKey(NatToDecimal(n) + suffix) == n
  {
    DigitsAppend(NatToDecimal(n), suffix);
    DigitsSpec(NatToDecimal(n));
    DigitsSpec(suffix);
    assert NatToDecimal(n) + [] == NatToDecimal(n);
    DecimalRoundTrip(n);
  }

  /** All digits count, not only the leading number. */
  lemma QualityKeyTakesAllDigits()
    ensures QualityKey("1080p60") == 108060
  {
    DigitsOfLabel();
    ValueOfDigits();
  }

  /** The digits of "1080p60", on both sides of the "p". */
  lemma DigitsOfLabel()
    ensures Digits("1080p60") == "108060"
  {
    assert "1080p60" == "1080" + "p60";
    DigitsAppend("1080", "p60");
    assert "p60" == "p" + "60";
    DigitsAppend("p", "60");
  }

  /** "108060" read as a decimal number, one digit at a time. */
  lemma ValueOfDigits()
    ensures DecimalValue("108060") == 108060
  {
    var ds := "108060";
    assert DecimalValue(ds[..1]) == 1;
    assert DecimalValue(ds[..2]) == 10 by { assert ds[..2][..1] == ds[..1]; }
    assert DecimalValue(ds[..3]) == 108 by { assert ds[..3][..2] == ds[..2]; }
    assert DecimalValue(ds[..4]) == 1080 by { assert ds[..4][..3] == ds[..3]; }
    assert DecimalValue(ds[..5]) == 10806 by { assert ds[..5][..4] == ds[..4]; }
    assert DecimalValue(ds) == 108060 by { assert ds[..5] == ds[..|ds| - 1]; }
  }

  predicate SortedByKey(s: seq<string>) {
    forall i, j :: 0 <= i < j < |s| ==> QualityKey(s[i]) <= QualityKey(s[j])
  }

  predicate NoDuplicates(s: seq<string>) {
    forall i, j :: 0 <= i < j < |s| ==> s[i] != s[j]
  }

  /** Places `q` before the first element whose key is not smaller. */
  function InsertByKey(q: string, s: seq<string>): seq<string> {
    if s == [] then [q]
    else if QualityKey(q) <= QualityKey(s[0]) then [q] + s
    else [s[0]] + InsertByKey(q, s[1..])
  }

  lemma {:induction false} InsertCounts(q: string, s: seq<string>)
    ensures multiset(InsertByKey(q, s)) == multiset(s) + multiset{q}
  {
    if s != [] && QualityKey(q) > QualityKey(s[0]) {
      InsertCounts(q, s[1..]);
      assert s == [s[0]] + s[1..];
    }
  }

  /** Every element of an insertion is the inserted one or an old one. */
  lemma InsertMembers(q: string, s: seq<string>, x: string)
    requires x in InsertByKey(q, s)
    ensures x == q || x in s
  {
  }

  lemma {:induction false} InsertKeepsOrder(q: string, s: seq<string>)
    requires SortedByKey(s)
    ensures SortedByKey(InsertByKey(q, s))
  {
    if s != [] && QualityKey(q) > QualityKey(s[0]) {
      var t := InsertByKey(q, s[1..]);
      InsertKeepsOrder(q, s[1..]);
      forall k | 0 <= k < |t| ensures QualityKey(s[0]) <= QualityKey(t[k]) {
        InsertMembers(q, s[1..], t[k]);
      }
      assert InsertByKey(q, s) == [s[0]] + t;
    }
  }

  lemma {:induction false} InsertKeepsDistinct(q: string, s: seq<string>)
    requires NoDuplicates(s) && q !in s
    ensures NoDuplicates(InsertByKey(q, s))
  {
    if s != [] && QualityKey(q) > QualityKey(s[0]) {
      var t := InsertByKey(q, s[1..]);
      InsertKeepsDistinct(q, s[1..]);
      assert s[0] !in s[1..];
      if s[0] in t { InsertMembers(q, s[1..], s[0]); }
      assert InsertByKey(q, s) == [s[0]] + t;
    }
  }

  /** The quality list sorted with `sortQualities`: an insertion sort by
      `QualityKey` that keeps equal keys in their original order, as the
      stable built-in sort does. */
  function SortQualities(s: seq<string>): seq<string> {
    if s == [] then [] else InsertByKey(s[0], SortQualities(s[1..]))
  }

  /** The sorted list is in ascending key order and holds the same
      labels. */
  lemma {:induction false} SortQualitiesSpec(s: seq<string>)
    ensures SortedByKey(SortQualities(s))
    ensures multiset(SortQualities(s)) == multiset(s)
  {
    if s != [] {
      var t := SortQualities(s[1..]);
      SortQualitiesSpec(s[1..]);
      InsertCounts(s[0], t);
      assert s == [s[0]] + s[1..];
      InsertKeepsOrder(s[0], t);
    }
  }

  /** Sorting a list without duplicates creates none. */
  lemma {:induction false} SortKeepsDistinct(s: seq<string>)
    requires NoDuplicates(s)
    ensures NoDuplicates(SortQualities(s))
  {
    if s != [] {
      var t := SortQualities(s[1..]);
      assert NoDuplicates(s[1..]);
      SortKeepsDistinct(s[1..]);
      SortQualitiesSpec(s[1..]);
      assert s[0] !in s[1..];
      assert s[0] !in t by { assert s[0] !in multiset(s[1..]); }
      InsertKeepsDistinct(s[0], t);
    }
  }

  /** Duplicates dropped through a `Set`: each element once, in order of
      first appearance. */
  function Distinct(s: seq<string>): seq<string> {
    if s == [] then []
    else
      var d := Distinct(s[..|s| - 1]);
      if s[|s| - 1] in d then d else d + [s[|s| - 1]]
  }

  /** `Distinct` lists each element of `s` exactly once. */
  lemma {:induction false} DistinctSpec(s: seq<string>)
    ensures NoDuplicates(Distinct(s))
    ensures forall x :: x in Distinct(s) <==> x in s
  {
    if s != [] {
      var init := s[..|s| - 1];
      assert s == init + [s[|s| - 1]];
      DistinctSpec(init);
    }
  }

  // Stability: labels with equal keys keep their order.

  /** The labels of `s` whose key is `k`, in their order in `s`. */
  function WithKey(s: seq<string>, k: nat): seq<string> {
    if s == [] then []
    else (if QualityKey(s[0]) == k then [s[0]] else []) + WithKey(s[1..], k)
  }

  lemma {:induction false} WithKeyHas(s: seq<string>, k: nat, x: string)
    ensures x in WithKey(s, k) <==> x in s && QualityKey(x) == k
  {
    if s != [] {
      WithKeyHas(s[1..], k, x);
      assert s == [s[0]] + s[1..];
    }
  }

  lemma {:induction false} WithKeyAppend(a: seq<string>, b: seq<string>, k: nat)
    ensures WithKey(a + b, k) == WithKey(a, k) + WithKey(b, k)
  {
    if a == [] {
      assert a + b == b;
    } else {
      assert (a + b)[1..] == a[1..] + b;
      WithKeyAppend(a[1..], b, k);
    }
  }

  /** An insertion puts `q` in front of every label with the same key. */
  lemma {:induction false} InsertWithKey(q: string, s: seq<string>, k: nat)
    ensures WithKey(InsertByKey(q, s), k) == (if QualityKey(q) == k then [q] else []) + WithKey(s, k)
  {
    if s == [] {
      assert InsertByKey(q, s) == [q] + s;
      WithKeyAppend([q], s, k);
    } else if QualityKey(q) <= QualityKey(s[0]) {
      assert InsertByKey(q, s) == [q] + s;
      WithKeyAppend([q], s, k);
    } else {
      var t := InsertByKey(q, s[1..]);
      assert InsertByKey(q, s) == [s[0]] + t;
      InsertWithKey(q, s[1..], k);
      WithKeyAppend([s[0]], t, k);
      assert WithKey(s, k) == WithKey([s[0]], k) + WithKey(s[1..], k) by {
        assert s == [s[0]] + s[1..];
        WithKeyAppend([s[0]], s[1..], k);
      }
    }
  }

  /** `SortQualities` is stable: for every key, the labels with that key
      come out in the order they went in. */
  lemma {:induction false} SortQualitiesStable(s: seq<string>, k: nat)
    ensures WithKey(SortQualities(s), k) == WithKey(s, k)
  {
    if s != [] {
      SortQualitiesStable(s[1..], k);
      InsertWithKey(s[0], SortQualities(s[1..]), k);
    }
  }

  /** One more label at the end: `Distinct` keeps it exactly when it is
      new. */
  lemma DistinctSnoc(s: seq<string>, x: string)
    ensures Distinct(s + [x]) == if x in Distinct(s) then Distinct(s) else Distinct(s) + [x]
  {
    assert (s + [x])[..|s + [x]| - 1] == s;
  }

  /** Dropping duplicates keeps, within each key, the order of first
      appearance. */
  lemma {:induction false} DistinctWithKey(s: seq<string>, k: nat)
    ensures WithKey(Distinct(s), k) == Distinct(WithKey(s, k))
  {
    if s != [] {
      var init, last := s[..|s| - 1], s[|s| - 1];
      assert s == init + [last];
      DistinctWithKey(init, k);
      DistinctSnoc(init, last);
      WithKeyAppend(init, [last], k);
      if QualityKey(last) == k {
        DistinctTail(init, last, k);
      } else {
        DistinctOtherKey(init, last, k);
      }
    }
  }

  lemma DistinctTail(init: seq<string>, last: string, k: nat)
    requires QualityKey(last) == k
    requires WithKey(Distinct(init), k) == Distinct(WithKey(init, k))
    ensures WithKey(if last in Distinct(init) then Distinct(init) else Distinct(init) + [last], k)
      == Distinct(WithKey(init, k) + [last])
  {
    var d, w := Distinct(init), WithKey(init, k);
    DistinctSnoc(w, last);
    DistinctSpec(init);
    DistinctSpec(w);
    WithKeyHas(init, k, last);
    assert last in d <==> last in Distinct(w);
    if last !in d {
      WithKeyAppend(d, [last], k);
    }
  }

  lemma DistinctOtherKey(init: seq<string>, last: string, k: nat)
    requires QualityKey(last) != k
    ensures WithKey(if last in Distinct(init) then Distinct(init) else Distinct(init) + [last], k)
      == WithKey(Distinct(init), k)
    ensures WithKey(init, k) + WithKey([last], k) == WithKey(init, k)
  {
    var d := Distinct(init);
    WithKeyAppend(d, [last], k);
    assert WithKey(d, k) + [] == WithKey(d, k);
    assert WithKey(init, k) + [] == WithKey(init, k);
  }

  /** The entry belongs to the (already trimmed) server name and has
      quality label `q`. */
  predicate Offers(e: LookupEntry, serverName: string, q: string) {
    Trim(e.serverName) == serverName && e.quality == q
  }

  /** The quality labels of the entries of one server, in table order,
      repeats included. */
  function QualitiesOf(lookup: seq<LookupEntry>, serverName: string): seq<string> {
    if lookup == [] then []
    else
      (if Trim(lookup[0].serverName) == serverName then [lookup[0].quality] else [])
      + QualitiesOf(lookup[1..], serverName)
  }

  lemma {:induction false} QualitiesOfSpec(lookup: seq<LookupEntry>, serverName: string)
    ensures forall q :: q in QualitiesOf(lookup, serverName) <==>
      exists i :: 0 <= i < |lookup| && Offers(lookup[i], serverName, q)
  {
    if lookup != [] {
      QualitiesOfSpec(lookup[1..], serverName);
      assert forall i :: 1 <= i < |lookup| ==> lookup[i] == lookup[1..][i - 1];
      assert forall i :: 0 <= i < |lookup| - 1 ==> lookup[1..][i] == lookup[i + 1];
    }
  }

  /** The quality options `onServerChange` lists for a selected server:
      distinct labels, ascending by key. */
  function OfferedQualities(lookup: seq<LookupEntry>, serverName: string): seq<string> {
    SortQualities(Distinct(QualitiesOf(lookup, serverName)))
  }

  /** The options offered for a server are exactly the quality labels of
      its entries, each listed once, in ascending key order. */
  lemma OfferedQualitiesSpec(lookup: seq<LookupEntry>, serverName: string)
    ensures var r := OfferedQualities(lookup, serverName);
      && SortedByKey(r)
      && NoDuplicates(r)
      && forall q :: q in r <==> exists i :: 0 <= i < |lookup| && Offers(lookup[i], serverName, q)
  {
    QualitiesOfSpec(lookup, serverName);
    var d := Distinct(QualitiesOf(lookup, serverName));
    DistinctSpec(QualitiesOf(lookup, serverName));
    var r := SortQualities(d);
    SortQualitiesSpec(d);
    SortKeepsDistinct(d);
    assert forall q :: q in r <==> q in d by {
      assert forall q :: q in r <==> q in multiset(r);
      assert forall q :: q in d <==> q in multiset(d);
    }
  }

  /** Options with equal keys ("SD" and "HD", or "720" and "720p") are
      offered in the order in which the table first lists them. */
  lemma OfferedQualitiesStable(lookup: seq<LookupEntry>, serverName: string, k: nat)
    ensures WithKey(OfferedQualities(lookup, serverName), k)
      == Distinct(WithKey(QualitiesOf(lookup, serverName), k))
  {
    var d := Distinct(QualitiesOf(lookup, serverName));
    SortQualitiesStable(d, k);
    DistinctWithKey(QualitiesOf(lookup, serverName), k);
  }

  // ---------------------------------------------------------------------
  // Finding the entry for a selection

  /** Both trimmed fields of the entry equal the trimmed selection. */
  predicate Matches(e: LookupEntry, serverName: string, quality: string) {
    Trim(e.serverName) == serverName && Trim(e.quality) == quality
  }

  /** `lookup.find(...)`: the position of the first matching entry. */
  function FirstMatch(lookup: seq<LookupEntry>, serverName: string, quality: string): (r: Option<nat>)
    ensures r.Some? ==> r.value < |lookup| && Matches(lookup[r.value], serverName, quality)
    ensures r.Some? ==> forall j :: 0 <= j < r.value ==> !Matches(lookup[j], serverName, quality)
    ensures r.None? ==> forall j :: 0 <= j < |lookup| ==> !Matches(lookup[j], serverName, quality)
  {
    if lookup == [] then None
    else if Matches(lookup[0], serverName, quality) then Some(0)
    else match FirstMatch(lookup[1..], serverName, quality)
      case Some(i) => Some(i + 1)
      case None => None
  }

  /** `findEntry()`: nothing when either trimmed selection is empty,
      otherwise the first entry matching both trimmed fields. */
  function FindEntry(lookup: seq<LookupEntry>, serverValue: string, qualityValue: string): Option<LookupEntry> {
    var serverName := Trim(serverValue);
    var quality := Trim(qualityValue);
    if serverName == "" || quality == "" then None
    else match FirstMatch(lookup, serverName, quality)
      case Some(i) => Some(lookup[i])
      case None => None
  }

  /** `findEntry` gives nothing when either trimmed selection is empty;
      otherwise it gives the first entry whose trimmed fields equal the
      trimmed selection, and nothing only when no entry does. */
  lemma FindEntrySpec(lookup: seq<LookupEntry>, serverValue: string, qualityValue: string)
    ensures var r := FindEntry(lookup, serverValue, qualityValue);
      var name, quality := Trim(serverValue), Trim(qualityValue);
      && (name == "" || quality == "" ==> r.None?)
      && (r.Some? ==> exists i :: (0 <= i < |lookup| && lookup[i] == r.value
            && Matches(lookup[i], name, quality)
            && forall j :: 0 <= j < i ==> !Matches(lookup[j], name, quality)))
      && (r.None? && name != "" && quality != "" ==>
            forall j :: 0 <= j < |lookup| ==> !Matches(lookup[j], name, quality))
  {
  }

  // ---------------------------------------------------------------------
  // Cache key, label, decision

  /** The cache key: server id and quality joined by a bar. */
  function CacheKey(e: LookupEntry): string {
    e.serverId + "|" + e.quality
  }

  /** The cache key starts with the server id and ends with the quality,
      joined by a bar. */
  lemma CacheKeyParts(e: LookupEntry)
    ensures var k := CacheKey(e);
      |k| == |e.serverId| + 1 + |e.quality| && k[..|e.serverId|] == e.serverId
      && k[|e.serverId|] == '|' && k[|e.serverId| + 1..] == e.quality
  {
  }

  /** The key does not tell server id and quality apart when the bar
      occurs in them: an id `a|b` with quality `c` and an id `a` with
      quality `b|c` share one cache slot. */
  lemma CacheKeyCollides(a: string, b: string, c: string, e1: LookupEntry, e2: LookupEntry)
    requires e1.serverId == a + "|" + b && e1.quality == c
    requires e2.serverId == a && e2.quality == b + "|" + c
    ensures CacheKey(e1) == CacheKey(e2)
  {
  }

  /** With bar-free server ids, equal keys mean the same server id and
      the same quality. */
  lemma CacheKeySeparates(e1: LookupEntry, e2: LookupEntry)
    requires '|' !in e1.serverId && '|' !in e2.serverId
    requires CacheKey(e1) == CacheKey(e2)
    ensures e1.serverId == e2.serverId && e1.quality == e2.quality
  {
    CacheKeyParts(e1);
    CacheKeyParts(e2);
  }

  /** The text `setIframeSrc` puts in the quality label. */
  function QualityLabel(quality: string): string {
    if quality != "" then quality + " • AUTO" else "AUTO"
  }

  /** The label is "AUTO" alone for an empty quality, and otherwise the
      quality followed by " • AUTO". */
  lemma QualityLabelShape(quality: string)
    ensures quality == "" ==> QualityLabel(quality) == "AUTO"
    ensures quality != "" ==> var r := QualityLabel(quality);
      |r| == |quality| + 7 && r[..|quality|] == quality && r[|quality|..] == " • AUTO"
  {
  }

  /** How `onQualityChange` obtains the URL of a found entry. */
  datatype Source = Direct(url: string) | Cached(url: string) | Resolve

  /** A direct entry with a non-empty href plays that href; otherwise a
      non-empty cached URL under the entry's key plays; otherwise the URL
      has to be resolved. */
  function SourceFor(e: LookupEntry, cache: map<string, string>): (r: Source)
    ensures r.Direct? <==> e.isDirect && e.href != ""
    ensures r.Direct? ==> r.url == e.href
    ensures r.Cached? ==> CacheKey(e) in cache && cache[CacheKey(e)] == r.url && r.url != ""
    ensures r.Resolve? <==> !(e.isDirect && e.href != "") && (CacheKey(e) !in cache || cache[CacheKey(e)] == "")
  {
    var key := CacheKey(e);
    if e.isDirect && e.href != "" then Direct(e.href)
    else if key in cache && cache[key] != "" then Cached(cache[key])
    else Resolve
  }

  // ---------------------------------------------------------------------
  // The resolve call

  /** The URL `fetchServerUrl` requests, or `None` when the base or the
      secret is missing and no request is made. */
  function ServerRequestUrl(serverId: string, apiBase: string, apiSecret: string): (r: Option<string>)
    ensures r.None? <==> apiBase == "" || apiSecret == ""
    ensures r.Some? ==> r.value == apiBase + Mark + NormalizeServerId(serverId)
  {
    if apiBase == "" || apiSecret == "" then None
    else Some(apiBase + Mark + NormalizeServerId(serverId))
  }

  /** How the promise of `fetchServerUrl` settles for a given reply. */
  function FetchServerUrl(serverId: string, apiBase: string, apiSecret: string, reply: Reply<UrlData>): (r: Settled<Option<string>>)
    ensures ServerRequestUrl(serverId, apiBase, apiSecret).None? ==> r == Resolved(None)
    ensures r.Rejected? <==> ServerRequestUrl(serverId, apiBase, apiSecret).Some? && Throws(reply)
    ensures forall u :: r == Resolved(Some(u)) <==>
      ServerRequestUrl(serverId, apiBase, apiSecret).Some? && CarriesUrl(reply, u)
  {
    if apiBase == "" || apiSecret == "" then Resolved(None)
    else match reply
      case NetworkError => Rejected
      case Response(statusOk, body) =>
        if !statusOk then Resolved(None)
        else match body
          case NotJson => Rejected
          case Json(ok, data) =>
            if ok && data.Some? && data.value.url.Some? && data.value.url.value != ""
            then Resolved(Some(data.value.url.value))
            else Resolved(None)
  }

  /** Without a base or a secret, the outcome does not depend on any reply:
      no request is made. */
  lemma NoRequestWithoutConfig(serverId: string, apiBase: string, apiSecret: string, a: Reply<UrlData>, b: Reply<UrlData>)
    requires apiBase == "" || apiSecret == ""
    ensures FetchServerUrl(serverId, apiBase, apiSecret, a) == FetchServerUrl(serverId, apiBase, apiSecret, b) == Resolved(None)
  {
  }

  /** `fetchServerUrl` with its rejection caught and read as `null`, as
      the completion step needs it: it never rejects, and it yields a URL
      exactly when the request is made and the reply carries a non-empty
      `data.url`. */
  function ServerUrlOrNull(serverId: string, apiBase: string, apiSecret: string, reply: Reply<UrlData>): (r: Option<string>)
    ensures forall u :: r == Some(u) <==>
      ServerRequestUrl(serverId, apiBase, apiSecret).Some? && CarriesUrl(reply, u)
  {
    match FetchServerUrl(serverId, apiBase, apiSecret, reply)
    case Resolved(url) => url
    case Rejected => None
  }

  /** A configured resolve call whose `fetch` rejects never settles with a
      value, so a `.then` callback attached to it never runs. */
  lemma NetworkErrorRejects(serverId: string, apiBase: string, apiSecret: string)
    requires apiBase != "" && apiSecret != ""
    ensures FetchServerUrl(serverId, apiBase, apiSecret, NetworkError) == Rejected
    ensures ServerUrlOrNull(serverId, apiBase, apiSecret, NetworkError) == None
  {
  }

  // ---------------------------------------------------------------------
  // State

  /** The module-level `resolvedUrls` dictionary. It is created once with
      the script and kept across `run()` calls. Only non-empty URLs are
      ever stored, so a present key is always a cache hit. */
  class UrlCache {
    var urls: map<string, string>

    ghost predicate Valid()
      reads this
    {
      forall k :: k in urls ==> urls[k] != ""
    }

    constructor ()
      ensures Valid() && urls == map[]
    {
      urls := map[];
    }

    /** Stores a resolved URL under its cache key. */
    method Put(key: string, url: string)
      requires Valid() && url != ""
      modifies this
      ensures Valid() && urls == old(urls)[key := url]
    {
      urls := urls[key := url];
    }
  }

  /** What a quality change did: nothing (no matching entry), played a URL
      at once, or issued a resolve request (`None` when the base or the
      secret is missing and `fetchServerUrl` returns without a request). */
  datatype Step = NoEntry | Shown(url: string) | Requested(request: Option<string>)

  /** The selectors, the player frame, the loading indicator and the
      quality label of one episode page, wired by one `run()`. The
      placeholder option of the quality selector is not part of
      `qualityOptions`; its value is "". */
  class ServerQualitySelect {
    const lookup: seq<LookupEntry>
    const apiBase: string
    const apiSecret: string
    const cache: UrlCache

    var serverValue: string
    var serverDisabled: bool
    var qualityValue: string
    var qualityOptions: seq<string>
    var qualityLocked: bool
    var qualityDisabled: bool
    var frameSrc: string
    var frameShown: bool
    var loadingShown: bool
    var qualityLabel: string
    /** The entry whose resolve request is in flight. */
    var pending: Option<LookupEntry>

    /** The quality selector is locked exactly when no server is chosen and
        then lists nothing; otherwise it lists that server's qualities.
        While a request is in flight both selectors are disabled, the
        loading indicator shows and the frame is hidden, and the in-flight
        entry matches the current selection; otherwise the selectors are
        enabled, the indicator is hidden and the frame shows. */
    ghost predicate Valid()
      reads this, cache
    {
      cache.Valid() && OptionsValid() && BusyValid()
    }

    /** The quality selector's lock and options follow the server choice. */
    ghost predicate OptionsValid()
      reads this`serverValue, this`qualityLocked, this`qualityOptions
    {
      && (qualityLocked <==> Trim(serverValue) == "")
      && qualityOptions == (if qualityLocked then [] else OfferedQualities(lookup, Trim(serverValue)))
    }

    /** The busy state: selectors, indicator and frame follow `pending`. */
    ghost predicate BusyValid()
      reads this`serverValue, this`qualityValue, this`serverDisabled, this`qualityDisabled,
        this`loadingShown, this`frameShown, this`pending
    {
      && (pending.Some? ==>
            serverDisabled && qualityDisabled && loadingShown && !frameShown
            && Matches(pending.value, Trim(serverValue), Trim(qualityValue)))
      && (pending.None? ==> !serverDisabled && !qualityDisabled && !loadingShown && frameShown)
    }

    /** `run()` once the lookup table is non-empty: wire the selectors and
        call `onServerChange()` for the server selector's initial value. */
    constructor (lookup: seq<LookupEntry>, apiBase: string, apiSecret: string, cache: UrlCache,
                 initialServer: string, initialSrc: string, initialLabel: string)
      requires cache.Valid()
      ensures Valid()
      ensures this.lookup == lookup && this.apiBase == apiBase && this.apiSecret == apiSecret && this.cache == cache
      ensures serverValue == initialServer && qualityValue == ""
      ensures qualityLocked <==> Trim(initialServer) == ""
      ensures qualityOptions == if Trim(initialServer) == "" then [] else OfferedQualities(lookup, Trim(initialServer))
      ensures frameSrc == initialSrc && frameShown && !loadingShown && qualityLabel == initialLabel
      ensures pending.None? && !serverDisabled && !qualityDisabled
    {
      this.lookup, this.apiBase, this.apiSecret, this.cache := lookup, apiBase, apiSecret, cache;
      serverValue, serverDisabled := "", false;
      qualityValue, qualityOptions, qualityLocked, qualityDisabled := "", [], true, false;
      frameSrc, frameShown, loadingShown, qualityLabel := initialSrc, true, false, initialLabel;
      pending := None;
      new;
      OnServerChange(initialServer);
    }

    /** `onServerChange()` after the server selector took `value`. An empty
        (trimmed) choice locks the quality selector with only the
        placeholder; any other choice unlocks it, lists the server's
        qualities and resets its value to "". Nothing else changes. */
    method OnServerChange(value: string)
      requires Valid() && !serverDisabled
      modifies this`serverValue, this`qualityValue, this`qualityOptions, this`qualityLocked
      ensures Valid()
      ensures serverValue == value && qualityValue == ""
      ensures qualityLocked <==> Trim(value) == ""
      ensures qualityOptions == if Trim(value) == "" then [] else OfferedQualities(lookup, Trim(value))
    {
      serverValue := value;
      var serverName := Trim(value);
      if serverName == "" {
        qualityOptions, qualityLocked, qualityValue := [], true, "";
        return;
      }
      qualityOptions := OfferedQualities(lookup, serverName);
      qualityLocked := false;
      qualityValue := "";
    }

    /** `setIframeSrc(url, quality)` */
    method SetFrameSrc(url: string, quality: string)
      modifies this`frameSrc, this`frameShown, this`loadingShown, this`qualityLabel
      ensures frameSrc == url && frameShown && !loadingShown && qualityLabel == QualityLabel(quality)
    {
      frameShown, frameSrc, loadingShown := true, url, false;
      qualityLabel := QualityLabel(quality);
    }

    /** `onQualityChange()` after the quality selector took `value`.
        Without a matching entry nothing else changes. A direct entry is
        cached under its key and played; a cache hit is played; neither
        issues a request. Otherwise the request step: both selectors are
        disabled, the indicator shows, the frame hides, the cache and the
        frame's source stay as they were. */
    method OnQualityChange(value: string) returns (step: Step)
      requires Valid() && !qualityDisabled
      modifies this`qualityValue, this`serverDisabled, this`qualityDisabled, this`frameSrc,
        this`frameShown, this`loadingShown, this`qualityLabel, this`pending, cache
      ensures Valid()
      ensures qualityValue == value
      ensures var found := FindEntry(lookup, old(serverValue), value);
        && (found.None? ==>
              step == NoEntry && cache.urls == old(cache.urls)
              && frameSrc == old(frameSrc) && qualityLabel == old(qualityLabel) && pending.None?)
        && (found.Some? && SourceFor(found.value, old(cache.urls)).Direct? ==>
              step == Shown(found.value.href)
              && cache.urls == old(cache.urls)[CacheKey(found.value) := found.value.href]
              && frameSrc == found.value.href && qualityLabel == QualityLabel(found.value.quality)
              && pending.None?)
        && (found.Some? && SourceFor(found.value, old(cache.urls)).Cached? ==>
              step == Shown(SourceFor(found.value, old(cache.urls)).url) && cache.urls == old(cache.urls)
              && frameSrc == step.url && qualityLabel == QualityLabel(found.value.quality)
              && pending.None?)
        && (found.Some? && SourceFor(found.value, old(cache.urls)).Resolve? ==>
              step == Requested(ServerRequestUrl(found.value.serverId, apiBase, apiSecret))
              && cache.urls == old(cache.urls)
              && frameSrc == old(frameSrc) && qualityLabel == old(qualityLabel)
              && pending == Some(found.value))
    {
      qualityValue := value;
      var found := FindEntry(lookup, serverValue, qualityValue);
      if found.None? {
        return NoEntry;
      }
      var entry := found.value;
      var key := CacheKey(entry);
      match SourceFor(entry, cache.urls)
      case Direct(url) =>
        cache.Put(key, url);
        Play(url, entry.quality);
        step := Shown(url);
      case Cached(url) =>
        Play(url, entry.quality);
        step := Shown(url);
      case Resolve =>
        FindEntrySpec(lookup, serverValue, qualityValue);
        step := StartRequest(entry);
    }

    /** Playing a URL while no request is in flight: the frame shows it
        and the label names its quality. */
    method Play(url: string, quality: string)
      requires Valid() && pending.None?
      modifies this`frameSrc, this`frameShown, this`loadingShown, this`qualityLabel
      ensures Valid()
      ensures frameSrc == url && qualityLabel == QualityLabel(quality)
    {
      SetFrameSrc(url, quality);
    }

    /** The request step of `onQualityChange()` for the entry matching the
        current selection: both selectors are disabled, the indicator
        shows and the frame hides until the reply arrives. */
    method StartRequest(entry: LookupEntry) returns (step: Step)
      requires Valid() && pending.None? && Matches(entry, Trim(serverValue), Trim(qualityValue))
      modifies this`serverDisabled, this`qualityDisabled, this`frameShown, this`loadingShown, this`pending
      ensures Valid() && pending == Some(entry)
      ensures step == Requested(ServerRequestUrl(entry.serverId, apiBase, apiSecret))
    {
      serverDisabled, qualityDisabled := true, true;
      loadingShown, frameShown := true, false;
      pending := Some(entry);
      step := Requested(ServerRequestUrl(entry.serverId, apiBase, apiSecret));
    }

    /** The `.then` callback of the resolve request, given what
        `fetchServerUrl` resolved to. Both selectors come back and the
        indicator hides. A non-empty URL is cached under the entry's key
        and played. Anything else caches nothing, shows the previous frame
        unchanged and puts the quality selector back on its placeholder. */
    method Complete(url: Option<string>)
      requires Valid() && pending.Some?
      modifies this`qualityValue, this`serverDisabled, this`qualityDisabled, this`frameSrc,
        this`frameShown, this`loadingShown, this`qualityLabel, this`pending, cache
      ensures Valid()
      ensures pending.None? && !serverDisabled && !qualityDisabled && !loadingShown && frameShown
      ensures var e := old(pending).value;
        && (url.Some? && url.value != "" ==>
              cache.urls == old(cache.urls)[CacheKey(e) := url.value]
              && frameSrc == url.value && qualityLabel == QualityLabel(e.quality)
              && qualityValue == old(qualityValue))
        && (!(url.Some? && url.value != "") ==>
              cache.urls == old(cache.urls)
              && frameSrc == old(frameSrc) && qualityLabel == old(qualityLabel) && qualityValue == "")
    {
      if url.Some? && url.value != "" {
        CompleteWithUrl(url.value);
      } else {
        CompleteWithoutUrl();
      }
    }

    /** The callback for a non-empty URL: selectors back, indicator
        hidden, the URL cached under the entry's key and played. */
    method CompleteWithUrl(url: string)
      requires Valid() && pending.Some? && url != ""
      modifies this`serverDisabled, this`qualityDisabled, this`frameSrc,
        this`frameShown, this`loadingShown, this`qualityLabel, this`pending, cache
      ensures Valid()
      ensures pending.None? && !serverDisabled && !qualityDisabled && !loadingShown && frameShown
      ensures cache.urls == old(cache.urls)[CacheKey(old(pending).value) := url]
      ensures frameSrc == url && qualityLabel == QualityLabel(old(pending).value.quality)
    {
      var entry := pending.value;
      serverDisabled, qualityDisabled := false, false;
      loadingShown := false;
      pending := None;
      cache.Put(CacheKey(entry), url);
      SetFrameSrc(url, entry.quality);
    }

    /** The callback without a URL: selectors back, indicator hidden, the
        previous frame shown again and the quality selector back on its
        placeholder. */
    method CompleteWithoutUrl()
      requires Valid() && pending.Some?
      modifies this`qualityValue, this`serverDisabled, this`qualityDisabled, this`frameShown,
        this`loadingShown, this`pending
      ensures Valid()
      ensures pending.None? && !serverDisabled && !qualityDisabled && !loadingShown && frameShown
      ensures qualityValue == ""
    {
      serverDisabled, qualityDisabled := false, false;
      loadingShown, frameShown := false, true;
      pending := None;
      qualityValue := "";
    }

    /** The reply to the in-flight request arrives, as the script is
        written: the callback is attached with `.then` only, so a rejected
        `fetchServerUrl` (the request fails or the body is not JSON)
        never runs it, and the selectors stay disabled with the frame
        hidden. */
    method ReceiveReply(reply: Reply<UrlData>)
      requires Valid() && pending.Some?
      modifies this`qualityValue, this`serverDisabled, this`qualityDisabled, this`frameSrc,
        this`frameShown, this`loadingShown, this`qualityLabel, this`pending, cache
      ensures Valid()
      ensures var outcome := FetchServerUrl(old(pending).value.serverId, apiBase, apiSecret, reply);
        && (outcome.Rejected? ==>
              unchanged(this) && unchanged(cache) && serverDisabled && qualityDisabled && !frameShown)
        && (outcome.Resolved? ==>
              pending.None? && !serverDisabled && !qualityDisabled && !loadingShown && frameShown)
        && (outcome == Resolved(None) ==>
              cache.urls == old(cache.urls) && frameSrc == old(frameSrc)
              && qualityLabel == old(qualityLabel) && qualityValue == "")
        && (forall u :: outcome == Resolved(Some(u)) ==>
              cache.urls == old(cache.urls)[CacheKey(old(pending).value) := u] && frameSrc == u
              && qualityLabel == QualityLabel(old(pending).value.quality)
              && qualityValue == old(qualityValue))
    {
      var outcome := FetchServerUrl(pending.value.serverId, apiBase, apiSecret, reply);
      if outcome.Resolved? {
        Complete(outcome.value);
      }
    }

    /** The reply arrives with the rejection caught and treated as a
        failed resolution: every reply completes the request, so the
        selectors always come back. */
    method ReceiveReplyCaught(reply: Reply<UrlData>)
      requires Valid() && pending.Some?
      modifies this`qualityValue, this`serverDisabled, this`qualityDisabled, this`frameSrc,
        this`frameShown, this`loadingShown, this`qualityLabel, this`pending, cache
      ensures Valid()
      ensures pending.None? && !serverDisabled && !qualityDisabled && !loadingShown && frameShown
      ensures var url := ServerUrlOrNull(old(pending).value.serverId, apiBase, apiSecret, reply);
        && (url.None? ==>
              cache.urls == old(cache.urls) && frameSrc == old(frameSrc)
              && qualityLabel == old(qualityLabel) && qualityValue == "")
        && (url.Some? ==>
              cache.urls == old(cache.urls)[CacheKey(old(pending).value) := url.value]
              && frameSrc == url.value && qualityLabel == QualityLabel(old(pending).value.quality)
              && qualityValue == old(qualityValue))
    {
      Complete(ServerUrlOrNull(pending.value.serverId, apiBase, apiSecret, reply));
    }
  }

  /** `run()`: with an empty lookup table it returns before wiring
      anything; otherwise the selectors are wired over the shared cache. */
  method Run(lookup: seq<LookupEntry>, apiBase: string, apiSecret: string, cache: UrlCache,
             initialServer: string, initialSrc: string, initialLabel: string)
    returns (p: ServerQualitySelect?)
    requires cache.Valid()
    ensures p == null <==> lookup == []
    ensures p != null ==> (fresh(p) && p.Valid() && p.cache == cache && p.lookup == lookup
      && p.serverValue == initialServer && p.qualityValue == "" && p.pending.None?)
  {
    if lookup == [] {
      return null;
    }
    p := new ServerQualitySelect(lookup, apiBase, apiSecret, cache, initialServer, initialSrc, initialLabel);
  }
}
