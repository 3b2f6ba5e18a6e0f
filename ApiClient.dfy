/** The browser-side API client of `src/lib/api-client.ts`. Unlike the
    server-side fetchers it catches nothing: a failed request or a body
    that is not JSON makes every call reject. */
module ApiClient {
  import opened Wrappers
  import opened Text
  import opened Http
  import opened ServerIds
  import opened FetchAnime
  import EpisodeServerQuality

  /** The `{ ok, data? }` that `clientFetch` resolves to. */
  datatype Fetched<T> = NotOk | Ok(data: T)

  /** `getBase()` and `getSecret()` both have a value. */
  predicate Configured(base: string, secret: string) {
    base != "" && secret != ""
  }

  /** The URL `clientFetch` requests for `path`, or nothing when no
      request is made. */
  function RequestUrl(base: string, secret: string, path: string): (r: Option<string>)
    ensures r.None? <==> !Configured(base, secret)
    ensures r.Some? ==> r.value == base + path
  {
    if !Configured(base, secret) then None else Some(base + path)
  }

  /** How `clientFetch` settles for a reply. Without a base or a secret it
      resolves `{ ok: false }` whatever the reply. It rejects exactly when
      the request fails or a 2xx body is not JSON, and it resolves with
      `data` exactly for a valid envelope. */
  function ClientFetch<T>(base: string, secret: string, reply: Reply<T>): (r: Settled<Fetched<T>>)
    ensures !Configured(base, secret) ==> r == Resolved(NotOk)
    ensures r.Rejected? <==> Configured(base, secret) && Throws(reply)
    ensures (r.Resolved? && r.value.Ok?) <==> Configured(base, secret) && ValidEnvelope(reply)
    ensures r.Resolved? && r.value.Ok? ==> r.value.data == reply.body.data.value
  {
    if !Configured(base, secret) then Resolved(NotOk)
    else match reply
      case NetworkError => Rejected
      case Response(statusOk, body) =>
        if !statusOk then Resolved(NotOk)
        else match body
          case NotJson => Rejected
          case Json(ok, data) =>
            if !ok || data.None? then Resolved(NotOk) else Resolved(Ok(data.value))
  }

  /** `fetchAnimeDetailClient` and `fetchEpisodeDetailClient`: the data of
      an ok call, `null` for any other resolved call, and a rejection
      passed on. */
  function FetchDetailClient<T>(base: string, secret: string, reply: Reply<T>): (r: Settled<Option<T>>)
    ensures r.Rejected? <==> ClientFetch(base, secret, reply).Rejected?
    ensures (r.Resolved? && r.value.Some?) <==> ClientFetch(base, secret, reply).Resolved? && ClientFetch(base, secret, reply).value.Ok?
    ensures r.Resolved? && r.value.Some? ==> r.value.value == ClientFetch(base, secret, reply).value.data
  {
    match ClientFetch(base, secret, reply)
    case Rejected => Rejected
    case Resolved(Ok(data)) => Resolved(Some(data))
    case Resolved(NotOk) => Resolved(None)
  }

  /** Configured and not thrown, the client's detail is exactly what the
      server-side fetcher returns for the same reply. */
  lemma DetailClientAgrees<T>(base: string, secret: string, reply: Reply<T>)
    requires Configured(base, secret) && !Throws(reply)
    ensures FetchDetailClient(base, secret, reply) == Resolved(FetchDetail(reply))
  {
  }

  /** The path of the resolve request for a server id or path. */
  function ServerPath(serverIdOrPath: string): string {
    Mark + NormalizeServerId(serverIdOrPath)
  }

  /** `fetchServerUrlClient`: `data.url` when the call is ok and the URL is
      truthy, `null` for any other resolved call, and a rejection passed
      on. */
  function FetchServerUrlClient(serverIdOrPath: string, base: string, secret: string, reply: Reply<UrlData>): Settled<Option<string>> {
    match ClientFetch(base, secret, reply)
    case Rejected => Rejected
    case Resolved(Ok(data)) =>
      if data.url.Some? && data.url.value != "" then Resolved(Some(data.url.value)) else Resolved(None)
    case Resolved(NotOk) => Resolved(None)
  }

  /** The browser resolver and the select-box resolver request the same
      URL and settle the same way for every id and every reply. */
  lemma {:induction false} ServerUrlClientAgrees(serverIdOrPath: string, base: string, secret: string, reply: Reply<UrlData>)
    ensures RequestUrl(base, secret, ServerPath(serverIdOrPath))
      == EpisodeServerQuality.ServerRequestUrl(serverIdOrPath, base, secret)
    ensures FetchServerUrlClient(serverIdOrPath, base, secret, reply)
      == EpisodeServerQuality.FetchServerUrl(serverIdOrPath, base, secret, reply)
  {
    if Configured(base, secret) {
      assert base + ServerPath(serverIdOrPath) == base + Mark + NormalizeServerId(serverIdOrPath);
    }
  }

  /** `fetchScheduleClient`: `{ days: [] }`, replaced by the payload's
      `days` when the call is ok and has them. Configured and not thrown,
      it resolves to what the server-side `fetchSchedule` returns. */
  method FetchScheduleClient<D>(base: string, secret: string, reply: Reply<SchedulePayload<D>>)
    returns (r: Settled<Schedule<D>>)
    ensures r.Rejected? <==> Configured(base, secret) && Throws(reply)
    ensures !Configured(base, secret) ==> r == Resolved(Schedule([]))
    ensures Configured(base, secret) && !Throws(reply) ==> r == Resolved(FetchSchedule(reply))
  {
    var fetched := ClientFetch(base, secret, reply);
    if fetched.Rejected? {
      return Rejected;
    }
    var result := Schedule([]);
    if fetched.value.NotOk? || fetched.value.data.days.None? {
      return Resolved(result);
    }
    result := result.(days := fetched.value.data.days.value);
    r := Resolved(result);
  }

  // ---------------------------------------------------------------------
  // Home data

  /** A slide of the browser home page: it links by `href` and its `year`
      may be `undefined`. */
  datatype ClientHero = ClientHero(title: string, description: string, image: string,
                                   year: Option<string>, rating: string, href: string)

  datatype ClientHomeData = ClientHomeData(ongoingList: seq<Ongoing>, completedList: seq<Completed>, hero: ClientHero)

  const DefaultClientHero: ClientHero := ClientHero(
    "StreamHub Anime",
    "Nonton anime ongoing dan completed dengan subtitle Indonesia.",
    "https://otakudesu.best/wp-content/uploads/2025/10/Fumetsu-no-Anata-e-Season-2-Sub.jpg",
    Some(""), "", "#")

  /** A template literal renders an absent value as "undefined". */
  function Rendered(v: Option<string>): string {
    v.GetOr("undefined")
  }

  /** The hero made from the first ongoing series: it links to the
      series' `href`, or to "#" when it has none. */
  function ClientHeroOf(first: Ongoing): (h: ClientHero)
    ensures h.title == first.title && h.image == first.poster && h.rating == ""
    ensures h.year == first.latestReleaseDate
    ensures first.href.Some? ==> h.href == first.href.value
    ensures first.href.None? ==> h.href == "#"
  {
    ClientHero(first.title,
               NatToDecimal(first.episodes) + " episode \U{00B7} Terbaru " + Rendered(first.latestReleaseDate)
                 + " (" + Rendered(first.releaseDay) + ")",
               first.poster, first.latestReleaseDate, "", first.href.GetOr("#"))
  }

  /** `fetchHomeDataClient`: the default result, replaced field by field
      from an ok call. It rejects exactly when `clientFetch` does; any
      other failure gives the default hero and no series; an ok call gives
      both lists of the payload and, when there is an ongoing series, the
      hero made from the first one. */
  method FetchHomeDataClient(base: string, secret: string, reply: Reply<HomePayload>)
    returns (r: Settled<ClientHomeData>)
    ensures r.Rejected? <==> Configured(base, secret) && Throws(reply)
    ensures r.Resolved? && !(Configured(base, secret) && ValidEnvelope(reply)) ==>
      r.value == ClientHomeData([], [], DefaultClientHero)
    ensures Configured(base, secret) && ValidEnvelope(reply) ==>
      && r.Resolved?
      && r.value.ongoingList == reply.body.data.value.ongoing
      && r.value.completedList == reply.body.data.value.completed
      && r.value.hero == (if reply.body.data.value.ongoing != [] then ClientHeroOf(reply.body.data.value.ongoing[0])
                          else DefaultClientHero)
  {
    var fetched := ClientFetch(base, secret, reply);
    if fetched.Rejected? {
      return Rejected;
    }
    var result := ClientHomeData([], [], DefaultClientHero);
    if fetched.value.NotOk? {
      return Resolved(result);
    }
    var data := fetched.value.data;
    if |data.ongoing| > 0 {
      result := result.(ongoingList := data.ongoing);
      var first := result.ongoingList[0];
      result := result.(hero := ClientHeroOf(first));
    }
    if |data.completed| > 0 {
      result := result.(completedList := data.completed);
    }
    r := Resolved(result);
  }
}
