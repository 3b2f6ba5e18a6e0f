/** The server-side fetchers of `src/lib/FetchAnime.ts`, given the reply
    of the otakudesu API as a value. Every one of them catches what
    `fetch` or `res.json()` throws, so none of them rejects. */
module FetchAnime {
  import opened Wrappers
  import opened Text
  import opened Http

  /** An ongoing series of the home page. The optional fields may be
      absent in a reply even where the declared type says otherwise. */
  datatype Ongoing = Ongoing(title: string, poster: string, episodes: nat,
                             releaseDay: Option<string>, latestReleaseDate: Option<string>,
                             animeId: Option<string>, href: Option<string>)

  /** A completed series of the home page. */
  datatype Completed = Completed(title: string, poster: string, episodes: nat, score: string,
                                 lastReleaseDate: Option<string>, animeId: Option<string>)

  /** A carousel slide. The constant `type: 'anime'` is not kept. */
  datatype Hero = Hero(title: string, description: string, image: string,
                       year: string, rating: string, animeId: string)

  /** `data` of the home endpoint: the two series lists. A list that is
      absent reads as the empty list, since both are used only when they
      have a truthy `length`. */
  datatype HomePayload = HomePayload(ongoing: seq<Ongoing>, completed: seq<Completed>)

  datatype HomeData = HomeData(ongoingList: seq<Ongoing>, completedList: seq<Completed>,
                               hero: Hero, heroes: seq<Hero>)

  /** `data` of the schedule endpoint, whose `days` may be absent. */
  datatype SchedulePayload<D> = SchedulePayload(days: Option<seq<D>>)

  datatype Schedule<D> = Schedule(days: seq<D>)

  const MaxHeroes: nat := 3

  const DefaultHero: Hero := Hero(
    "StreamHub Anime",
    "Nonton anime ongoing dan completed dengan subtitle Indonesia.",
    "https://otakudesu.best/wp-content/uploads/2025/10/Fumetsu-no-Anata-e-Season-2-Sub.jpg",
    "", "", "")

  function Min(a: int, b: int): int {
    if a < b then a else b
  }

  // ---------------------------------------------------------------------
  // Where a request goes

  /** The `opts` argument: absent, a bare secret string, or an object
      with optional `apiBase` and `apiSecret`. */
  datatype Opts = NoOpts | SecretText(secret: string) | EnvOpts(apiBase: Option<string>, apiSecret: Option<string>)

  /** The API base as `fetchHomeData` computes it, rendered as the URL
      template renders it. For an object the type test passes and yields
      its `apiBase`, which the nullish fallback replaces only when absent.
      For a string or absent options the type test yields `false`, which
      the nullish fallback keeps, so the URL starts with the text
      "false". */
  function ApiBaseAsWritten(opts: Opts, envBase: string): (r: string)
    ensures opts.EnvOpts? ==> r == opts.apiBase.GetOr(envBase)
    ensures !opts.EnvOpts? ==> r == "false"
  {
    match opts
    case EnvOpts(base, _) => base.GetOr(envBase)
    case _ => "false"
  }

  /** The evident intent: the object's `apiBase` when it has one, and the
      configured `API_BASE` in every other case. */
  function ApiBase(opts: Opts, envBase: string): (r: string)
    ensures opts.EnvOpts? && opts.apiBase.Some? ==> r == opts.apiBase.value
    ensures !(opts.EnvOpts? && opts.apiBase.Some?) ==> r == envBase
  {
    match opts
    case EnvOpts(Some(base), _) => base
    case _ => envBase
  }

  /** The two agree exactly on object options. */
  lemma ApiBaseAgreesOnObjects(opts: Opts, envBase: string)
    requires envBase != "false"
    ensures ApiBaseAsWritten(opts, envBase) == ApiBase(opts, envBase) <==> opts.EnvOpts?
  {
  }

  /** Called without options, the home request goes to the relative path
      `false/otakudesu/home` instead of the configured base. */
  lemma HomeRequestWithoutOpts(envBase: string)
    ensures ApiBaseAsWritten(NoOpts, envBase) + "/otakudesu/home" == "false/otakudesu/home"
    ensures ApiBase(NoOpts, envBase) + "/otakudesu/home" == envBase + "/otakudesu/home"
  {
  }

  /** The `X-API-Key` value: an object's `apiSecret`, a string `opts`
      itself, and otherwise (or when the object has none) the
      environment's `API_SECRET`, then the public default. */
  function ApiSecret(opts: Opts, envSecret: Option<string>, defaultSecret: string): (r: string)
    ensures opts.SecretText? ==> r == opts.secret
    ensures opts.EnvOpts? && opts.apiSecret.Some? ==> r == opts.apiSecret.value
    ensures (opts.NoOpts? || (opts.EnvOpts? && opts.apiSecret.None?)) ==>
      r == (if envSecret.Some? then envSecret.value else defaultSecret)
  {
    var chosen := match opts
      case EnvOpts(_, secret) => secret
      case SecretText(secret) => Some(secret)
      case NoOpts => None;
    chosen.GetOr(envSecret.GetOr(defaultSecret))
  }

  // ---------------------------------------------------------------------
  // Home data

  /** `toHero`: a slide for an ongoing series; its release date and id
      are copied, an absent one becoming "", and the rating is always "". */
  function ToHero(item: Ongoing): (h: Hero)
    ensures h.title == item.title && h.image == item.poster && h.rating == ""
    ensures item.latestReleaseDate.Some? ==> h.year == item.latestReleaseDate.value
    ensures item.latestReleaseDate.None? ==> h.year == ""
    ensures item.animeId.Some? ==> h.animeId == item.animeId.value
    ensures item.animeId.None? ==> h.animeId == ""
  {
    Hero(item.title,
         NatToDecimal(item.episodes) + " episode \U{00B7} Terbaru " + item.latestReleaseDate.GetOr("")
           + " (" + item.releaseDay.GetOr("") + ")",
         item.poster, item.latestReleaseDate.GetOr(""), "", item.animeId.GetOr(""))
  }

  /** A slide for a completed series: its rating is its score; its last
      release date and id are copied, an absent one becoming "". */
  function CompletedHero(c: Completed): (h: Hero)
    ensures h.title == c.title && h.image == c.poster && h.rating == c.score
    ensures c.lastReleaseDate.Some? ==> h.year == c.lastReleaseDate.value
    ensures c.lastReleaseDate.None? ==> h.year == ""
    ensures c.animeId.Some? ==> h.animeId == c.animeId.value
    ensures c.animeId.None? ==> h.animeId == ""
  {
    Hero(c.title, NatToDecimal(c.episodes) + " episode \U{00B7} Score " + c.score,
         c.poster, c.lastReleaseDate.GetOr(""), c.score, c.animeId.GetOr(""))
  }

  /** How many carousel slides come from each list: ongoing series
      first, up to three; completed ones fill what is left. */
  function OngoingSlots(p: HomePayload): nat {
    Min(MaxHeroes, |p.ongoing|)
  }

  function CompletedSlots(p: HomePayload): nat {
    Min(MaxHeroes - OngoingSlots(p), |p.completed|)
  }

  /** The slides built from the payload, before the fallback to `[hero]`. */
  function CarouselHeroes(p: HomePayload): seq<Hero> {
    seq(OngoingSlots(p), i requires 0 <= i < OngoingSlots(p) => ToHero(p.ongoing[i]))
    + seq(CompletedSlots(p), i requires 0 <= i < CompletedSlots(p) => CompletedHero(p.completed[i]))
  }

  /** The slides, position by position. */
  lemma CarouselHeroesShape(p: HomePayload)
    ensures var slides := CarouselHeroes(p);
      && |slides| == OngoingSlots(p) + CompletedSlots(p)
      && (forall k :: 0 <= k < OngoingSlots(p) ==> slides[k] == ToHero(p.ongoing[k]))
      && (forall k :: 0 <= k < CompletedSlots(p) ==> slides[OngoingSlots(p) + k] == CompletedHero(p.completed[k]))
  {
  }

  /** The result built from the payload of a valid envelope: both lists,
      the first ongoing series as hero, and the slides or, when there are
      none, the hero alone. */
  function HomeFromPayload(p: HomePayload): HomeData {
    var hero := if p.ongoing != [] then ToHero(p.ongoing[0]) else DefaultHero;
    var slides := CarouselHeroes(p);
    HomeData(p.ongoing, p.completed, hero, if slides != [] then slides else [hero])
  }

  /** What `fetchHomeData` returns for a reply. A thrown error leaves the
      default hero and empty lists with `heroes = [hero]`; a non-2xx
      status or an envelope without `ok`/`data` returns the initial result
      with no heroes at all. */
  function HomeDataSpec(reply: Reply<HomePayload>): HomeData {
    var initial := HomeData([], [], DefaultHero, []);
    if Throws(reply) then initial.(heroes := [DefaultHero])
    else if !ValidEnvelope(reply) then initial
    else HomeFromPayload(reply.body.data.value)
  }

  /** `fetchHomeData`: the initial result, the early returns, and the
      `catch` that sets `heroes` to the (still default) hero. */
  method FetchHomeData(reply: Reply<HomePayload>) returns (result: HomeData)
    ensures result == HomeDataSpec(reply)
  {
    result := HomeData([], [], DefaultHero, []);
    match reply
    case NetworkError =>
      result := result.(heroes := [result.hero]);
    case Response(statusOk, body) =>
      if !statusOk {
        return;
      }
      match body
      case NotJson =>
        result := result.(heroes := [result.hero]);
      case Json(ok, data) =>
        if !ok || data.None? {
          return;
        }
        result := ShapeHome(result, data.value);
  }

  /** The body of the `try` after the envelope check, on the initial
      result: copy the non-empty lists, take the hero from the first
      ongoing series, then build the slides. */
  method ShapeHome(initial: HomeData, p: HomePayload) returns (result: HomeData)
    requires initial == HomeData([], [], DefaultHero, [])
    ensures result == HomeFromPayload(p)
  {
    result := initial;
    if |p.ongoing| > 0 {
      result := result.(ongoingList := p.ongoing, hero := ToHero(p.ongoing[0]));
    }
    if |p.completed| > 0 {
      result := result.(completedList := p.completed);
    }
    assert result.ongoingList == p.ongoing && result.completedList == p.completed;
    var heroes: seq<Hero> := [];
    if |result.ongoingList| > 0 {
      heroes := OngoingSlides(result.ongoingList);
    }
    heroes := FillFromCompleted(heroes, result.completedList);
    SlidesAreCarousel(p, heroes);
    result := result.(heroes := if |heroes| > 0 then heroes else [result.hero]);
  }

  /** Slides that hold the ongoing slots, then the completed slots, are
      the carousel of the payload. */
  lemma SlidesAreCarousel(p: HomePayload, heroes: seq<Hero>)
    requires |heroes| == OngoingSlots(p) + CompletedSlots(p)
    requires forall k :: 0 <= k < OngoingSlots(p) ==> heroes[k] == ToHero(p.ongoing[k])
    requires forall k :: 0 <= k < CompletedSlots(p) ==> heroes[OngoingSlots(p) + k] == CompletedHero(p.completed[k])
    ensures heroes == CarouselHeroes(p)
  {
  }

  /** The `for` loop: a slide for each of the first (at most three)
      ongoing series, in order. */
  method OngoingSlides(list: seq<Ongoing>) returns (heroes: seq<Hero>)
    ensures |heroes| == Min(MaxHeroes, |list|)
    ensures forall k :: 0 <= k < |heroes| ==> heroes[k] == ToHero(list[k])
  {
    heroes := [];
    var i := 0;
    while i < Min(3, |list|)
      invariant 0 <= i <= Min(MaxHeroes, |list|)
      invariant |heroes| == i
      invariant forall k :: 0 <= k < i ==> heroes[k] == ToHero(list[k])
    {
      heroes := heroes + [ToHero(list[i])];
      i := i + 1;
    }
  }

  /** The `while` loop: completed series, in order, appended until there
      are three slides or the list runs out; what was there stays. */
  method FillFromCompleted(start: seq<Hero>, list: seq<Completed>) returns (heroes: seq<Hero>)
    requires |start| <= MaxHeroes
    ensures |heroes| == |start| + Min(MaxHeroes - |start|, |list|)
    ensures heroes[..|start|] == start
    ensures forall k :: 0 <= k < |heroes| - |start| ==> heroes[|start| + k] == CompletedHero(list[k])
  {
    heroes := start;
    var completedIdx := 0;
    while |heroes| < 3 && |list| > 0 && completedIdx < |list|
      invariant 0 <= completedIdx <= Min(MaxHeroes - |start|, |list|)
      invariant |heroes| == |start| + completedIdx
      invariant heroes[..|start|] == start
      invariant forall k :: 0 <= k < completedIdx ==> heroes[|start| + k] == CompletedHero(list[k])
    {
      var c := list[completedIdx];
      completedIdx := completedIdx + 1;
      heroes := heroes + [CompletedHero(c)];
    }
  }

  /** At most three slides, ever. */
  lemma HeroesAtMostThree(reply: Reply<HomePayload>)
    ensures |HomeDataSpec(reply).heroes| <= MaxHeroes
  {
  }

  /** The carousel is empty exactly when the status is not 2xx or the
      envelope lacks `ok` or `data`; a thrown error and every valid
      envelope leave at least one slide. */
  lemma HeroesEmptyOnlyWhenRejected(reply: Reply<HomePayload>)
    ensures HomeDataSpec(reply).heroes == [] <==> !Throws(reply) && !ValidEnvelope(reply)
  {
  }

  /** After a valid envelope the carousel holds `min(3, ongoing +
      completed)` slides when that is positive: ongoing series first, in
      order, then completed ones in order, each rated by its score. */
  lemma HeroesOrder(reply: Reply<HomePayload>)
    requires ValidEnvelope(reply)
    ensures var p := reply.body.data.value;
      var heroes := HomeDataSpec(reply).heroes;
      var m := Min(MaxHeroes, |p.ongoing|);
      && (|p.ongoing| + |p.completed| > 0 ==> |heroes| == Min(MaxHeroes, |p.ongoing| + |p.completed|))
      && (forall i :: 0 <= i < m ==> heroes[i] == ToHero(p.ongoing[i]))
      && (forall i :: m <= i < |heroes| && |p.ongoing| + |p.completed| > 0 ==>
            heroes[i] == CompletedHero(p.completed[i - m]) && heroes[i].rating == p.completed[i - m].score)
  {
  }

  /** Without a valid envelope no series is listed and the hero is the
      default one; with one, both lists are the payload's and the hero is
      the first ongoing series when there is one. */
  lemma HomeListsAndHero(reply: Reply<HomePayload>)
    ensures var r := HomeDataSpec(reply);
      && (!ValidEnvelope(reply) ==> r.ongoingList == [] && r.completedList == [] && r.hero == DefaultHero)
      && (ValidEnvelope(reply) ==>
            r.ongoingList == reply.body.data.value.ongoing
            && r.completedList == reply.body.data.value.completed
            && r.hero == (if reply.body.data.value.ongoing != [] then ToHero(reply.body.data.value.ongoing[0])
                          else DefaultHero))
  {
  }

  // ---------------------------------------------------------------------
  // Detail and schedule

  /** `fetchAnimeDetail` and `fetchEpisodeDetail`: the payload of a valid
      envelope, and `null` for a non-2xx status, an envelope without
      `ok`/`data`, or anything thrown. */
  function FetchDetail<T>(reply: Reply<T>): (r: Option<T>)
    ensures r.Some? <==> ValidEnvelope(reply)
    ensures r.Some? ==> r.value == reply.body.data.value
  {
    match reply
    case NetworkError => None
    case Response(statusOk, body) =>
      if !statusOk then None
      else match body
        case NotJson => None
        case Json(ok, data) => if ok then data else None
  }

  /** `fetchSchedule`: the payload's `days` when the envelope is valid and
      has them, and `{ days: [] }` otherwise, thrown errors included. */
  function FetchSchedule<D>(reply: Reply<SchedulePayload<D>>): (r: Schedule<D>)
    ensures ValidEnvelope(reply) && reply.body.data.value.days.Some? ==>
      r.days == reply.body.data.value.days.value
    ensures !(ValidEnvelope(reply) && reply.body.data.value.days.Some?) ==> r.days == []
  {
    var data := FetchDetail(reply);
    if data.Some? && data.value.days.Some? then Schedule(data.value.days.value) else Schedule([])
  }
}
