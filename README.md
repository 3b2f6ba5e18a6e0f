# Streaming front end: episode resolver, fetch shaping, carousel and reader

This project models the parts of an Astro/React anime-streaming front end
that carry sequential logic, and proves properties about them. Every
network reply is taken as a value.

- **Episode server/quality resolver, select-box variant**
  (`src/services/episodeServerQuality.ts`). A user picks a server, then a
  quality. The entry of the lookup table that matches the trimmed choice
  is played in one of three ways:
  - directly, when it is a direct link;
  - from a module-level cache keyed `serverId|quality`;
  - through one resolve request. While it is in flight both selectors are
    disabled and the player frame is hidden. Its completion re-enables
    both. On success it caches and plays the URL. On failure it shows the
    previous frame and resets the quality selector.

  The page is the class `ServerQualitySelect`. The cache, which outlives a
  single `run()`, is the class `UrlCache`. The quality list is sorted by a
  key made of all the label's digits, and it holds each label once.
- **Episode resolver, React button variant**
  (`src/components/streaming/EpisodeDetailWithQuery.tsx`). It extracts a
  server id from an href. It keeps a map of resolved URLs, the selected
  server and the loading server. It derives the frame source, the frame's
  visibility and the loading text from them. The component is the class
  `EpisodePlayer`. A click is split into the step up to the `await` and
  the step after the reply.
  - The selection is only ever set to a server that has a URL, so the
    frame is never hidden and the "Memuat server…" text never shows
    (`ResolvedSelectionShows`).
- **Server-id normalisation**, shared by both resolvers. It strips
  everything through the last `/server/` of the first line, in any letter
  case, then one trailing slash. It keeps the raw value when that leaves
  nothing.
- **Browser API client** (`src/lib/api-client.ts`). It covers the
  `{ ok, data }` decision, the detail, server-URL and schedule wrappers,
  and the home-page record.
- **Server-side fetchers** (`src/lib/FetchAnime.ts`). `fetchHomeData`
  builds the hero and the carousel slides: up to three, ongoing series
  first, then completed ones, with the `for` and `while` loops kept as
  loops. The module also covers the API-base expression and the fallbacks
  of the detail and schedule fetchers.
- **Hero carousel** (`src/components/anime/hero/HeroCarouselClient.tsx`).
  The track is padded with a copy at each end. It steps with saturation,
  snaps a copy back to the real slide it shows, and maps each track
  position to a real slide.
- **Manga reader** (`src/services/useStateChapter.ts`). It computes the
  current-page number (a scan with an early exit, then a clamp), the
  scroll percentage, and the key handler's decision.

All paths below are relative to the repository root.

## Model

| member | source | states |
|---|---|---|
| EpisodeServerQuality.QualityKeyOfLabel | src/services/episodeServerQuality.ts:17-21 | a label made of a number and a digit-free suffix ("720p") has that number as its sort key |
| EpisodeServerQuality.QualityKeyTakesAllDigits | src/services/episodeServerQuality.ts:18-19 | every digit of the label counts: "1080p60" sorts as 108060, not 1080 |
| EpisodeServerQuality.SortQualitiesSpec | src/services/episodeServerQuality.ts:17-21 | the sorted quality list is in ascending key order and is a permutation of its input |
| EpisodeServerQuality.SortKeepsDistinct | src/services/episodeServerQuality.ts:101-107 | sorting a duplicate-free list keeps it duplicate-free |
| EpisodeServerQuality.InsertKeepsOrder | src/services/episodeServerQuality.ts:17-21 | inserting one label into a key-ordered list keeps it key-ordered |
| EpisodeServerQuality.InsertCounts | src/services/episodeServerQuality.ts:17-21 | an insertion adds exactly the inserted label and loses nothing |
| EpisodeServerQuality.DistinctSpec | src/services/episodeServerQuality.ts:101-106 | removing duplicates keeps exactly the same labels, each once |
| EpisodeServerQuality.QualitiesOfSpec | src/services/episodeServerQuality.ts:101-105 | a label is collected for a server exactly when some entry whose trimmed server name equals the selection has that quality |
| EpisodeServerQuality.OfferedQualitiesSpec | src/services/episodeServerQuality.ts:101-107 | the offered options are exactly the quality labels of that server's entries, each once, in ascending key order |
| EpisodeServerQuality.InsertWithKey | src/services/episodeServerQuality.ts:17-21 | an insertion puts the new label in front of every label with the same key and moves no other label of that key |
| EpisodeServerQuality.SortQualitiesStable | src/services/episodeServerQuality.ts:107 | the sort is stable: for every key, the labels with that key come out in the order they went in |
| EpisodeServerQuality.DistinctWithKey | src/services/episodeServerQuality.ts:102-106 | removing duplicates keeps, within each key, the order of first appearance |
| EpisodeServerQuality.OfferedQualitiesStable | src/services/episodeServerQuality.ts:101-107 | options with equal keys ("SD" and "HD", "720" and "720p") are offered in the order in which the table first lists them |
| EpisodeServerQuality.FirstMatch | src/services/episodeServerQuality.ts:130-134 | the position found is the first entry matching both trimmed fields; no match means no entry matches |
| EpisodeServerQuality.FindEntrySpec | src/services/episodeServerQuality.ts:124-135 | no entry when either trimmed selection is empty; otherwise the first entry matching both trimmed fields, and none only when no entry matches |
| EpisodeServerQuality.CacheKeyParts | src/services/episodeServerQuality.ts:141 | the cache key is the server id, a bar, then the quality |
| EpisodeServerQuality.CacheKeyCollides | src/services/episodeServerQuality.ts:141 | the key is not injective: when the bar occurs in a server id or a quality label, an id `a` + bar + `b` with quality `c` and an id `a` with quality `b` + bar + `c` share one cache slot |
| EpisodeServerQuality.CacheKeySeparates | src/services/episodeServerQuality.ts:141 | when no server id contains a bar, equal keys mean the same server id and the same quality |
| EpisodeServerQuality.QualityLabelShape | src/services/episodeServerQuality.ts:80-89 | the label is "AUTO" for an empty quality and otherwise the quality followed by " • AUTO" |
| EpisodeServerQuality.SourceFor | src/services/episodeServerQuality.ts:141-151 | a direct entry with an href plays it; otherwise a non-empty cached URL under the key plays; otherwise the URL must be resolved, each case exactly when its condition holds |
| EpisodeServerQuality.ServerRequestUrl | src/services/episodeServerQuality.ts:34-38 | no request exactly when the base or the secret is empty; otherwise the request goes to the base, `/server/`, then the normalised id |
| EpisodeServerQuality.FetchServerUrl | src/services/episodeServerQuality.ts:29-47 | null without base or secret; rejects exactly when configured and the fetch or the JSON parse throws; resolves to `u` exactly when configured and the reply is a 2xx valid envelope whose `data.url` is the non-empty `u` |
| EpisodeServerQuality.NoRequestWithoutConfig | src/services/episodeServerQuality.ts:37 | without base or secret the outcome is null whatever the reply |
| EpisodeServerQuality.ServerUrlOrNull | src/services/episodeServerQuality.ts:29-47 | with the rejection read as null, a URL exactly when the call is made and the reply carries it |
| EpisodeServerQuality.NetworkErrorRejects | src/services/episodeServerQuality.ts:38-43 | a configured call whose fetch fails rejects, so no `.then` callback runs |
| EpisodeServerQuality.UrlCache.Put | src/services/episodeServerQuality.ts:143 | a non-empty URL is stored under its key; only non-empty URLs are ever stored, so a present key is a cache hit |
| EpisodeServerQuality.ServerQualitySelect.constructor | src/services/episodeServerQuality.ts:49-60 | wiring the selectors runs the server-change step for the initial server value, with nothing in flight |
| EpisodeServerQuality.ServerQualitySelect.OnServerChange | src/services/episodeServerQuality.ts:91-122 | an empty trimmed choice locks the quality selector with no options; any other unlocks it, lists that server's offered qualities and resets its value to ""; nothing else changes |
| EpisodeServerQuality.ServerQualitySelect.SetFrameSrc | src/services/episodeServerQuality.ts:80-89 | the frame shows the URL, the indicator hides and the label names the quality |
| EpisodeServerQuality.ServerQualitySelect.OnQualityChange | src/services/episodeServerQuality.ts:137-159 | no matching entry: nothing but the selector value changes; direct entry: cached under its key and played, no request; cache hit: played, no request; otherwise: request issued, both selectors disabled, frame hidden, cache and frame source unchanged; the page invariant is kept |
| EpisodeServerQuality.ServerQualitySelect.StartRequest | src/services/episodeServerQuality.ts:152-160 | the request step disables both selectors, shows the indicator, hides the frame and records the in-flight entry |
| EpisodeServerQuality.ServerQualitySelect.Complete | src/services/episodeServerQuality.ts:160-174 | completion always re-enables both selectors and hides the indicator; a URL is cached under the entry's key and played; otherwise nothing is cached, the previous frame source is shown again and the quality selector returns to its placeholder |
| EpisodeServerQuality.ServerQualitySelect.CompleteWithUrl | src/services/episodeServerQuality.ts:161-169 | a resolved URL is cached under the in-flight entry's key and played, with the selectors back |
| EpisodeServerQuality.ServerQualitySelect.CompleteWithoutUrl | src/services/episodeServerQuality.ts:161-172 | a failed resolution shows the old frame again and resets the quality selector, with the selectors back |
| EpisodeServerQuality.ServerQualitySelect.ReceiveReply | src/services/episodeServerQuality.ts:160-174 | as written: a rejected call changes nothing, so both selectors stay disabled and the frame stays hidden; a resolved call ends the request with both selectors enabled, the indicator hidden and the frame shown; a null URL keeps the cache, the old frame and the label and resets the quality selector to ""; a URL is cached under the entry's key and played, with the label set from the entry's quality and the quality selector kept |
| EpisodeServerQuality.ServerQualitySelect.ReceiveReplyCaught | src/services/episodeServerQuality.ts:160-174 | with the rejection caught, every reply completes the request and brings the selectors back; without a URL the cache, frame and label stay and the quality selector resets to "", and with one the URL is cached, played and labelled |
| EpisodeServerQuality.Run | src/services/episodeServerQuality.ts:49-60 | an empty lookup table wires nothing; otherwise a fresh, consistent page over the shared cache |
| ServerIds.NormalizeServerId | src/services/episodeServerQuality.ts:34-36 | the normalised id is empty exactly when the raw one is, and never longer |
| ServerIds.NormalizeServerIdSpec | src/services/episodeServerQuality.ts:34-36 | when the strip leaves nothing or a lone slash, the raw id is kept; otherwise the result is the strip with one trailing slash removed, and never empty |
| ServerIds.NormalizePlainId | src/services/episodeServerQuality.ts:34-36 | a slash-free id is used unchanged |
| ServerIds.NormalizeServerPath | src/services/episodeServerQuality.ts:34-36 | a single-line `prefix/server/id` with or without a trailing slash normalises to `id`, except for the ambiguous `/server/server/` |
| ServerIds.StripThroughLastMark | src/services/episodeServerQuality.ts:35 | stripping through the last `/server/` keeps a suffix of the input |
| ServerIds.StripThroughLastMarkSpec | src/services/episodeServerQuality.ts:35 | with no `/server/` (any letter case) on the first line the input is kept whole; otherwise the result is exactly what follows the last `/server/` lying within the first line |
| ServerIds.NormalizeKeepsInnerSlash | src/services/episodeServerQuality.ts:34-36 | slashes after the last `/server/` are kept: `a/server/x/y` normalises to `x/y` |
| ServerIds.DropTrailingSlash | src/services/episodeServerQuality.ts:35 | exactly one slash at the very end is removed, and nothing else changes |
| EpisodeDetailWithQuery.GetServerIdSpec | src/components/streaming/EpisodeDetailWithQuery.tsx:11-15 | an absolute http(s) link, or a link where the pattern does not match, gives the item's `serverId`; otherwise the maximal non-empty run of non-slashes after the leftmost matching `/server/` |
| EpisodeDetailWithQuery.ServerIdFromPath | src/components/streaming/EpisodeDetailWithQuery.tsx:13-14 | a relative link `prefix/server/id…` with a slash-free prefix yields `id` |
| EpisodeDetailWithQuery.ServerIdAgreesWithNormalize | src/components/streaming/EpisodeDetailWithQuery.tsx:11-15 | on an href `prefix/server/<id>` or `prefix/server/<id>/` with a slash-free prefix (the empty one included), the extracted id is what the shared normalisation keeps, and normalising it again changes nothing |
| EpisodeDetailWithQuery.ServerPathIsRelative | src/components/streaming/EpisodeDetailWithQuery.tsx:11-12 | an href `prefix/server/<id>…` with a slash-free prefix never passes the absolute `http(s)://` test |
| EpisodeDetailWithQuery.FrameSrc | src/components/streaming/EpisodeDetailWithQuery.tsx:102-106 | the default stream without a selection; the selection's resolved URL when it has one; the default stream otherwise |
| EpisodeDetailWithQuery.ResolvedSelectionShows | src/components/streaming/EpisodeDetailWithQuery.tsx:97-116 | when every stored URL is non-empty and the selection has one, the frame shows it, is not hidden, and the loading text does not show |
| EpisodeDetailWithQuery.EpisodePlayer.constructor | src/components/streaming/EpisodeDetailWithQuery.tsx:18-20 | no selection, no URLs, nothing loading |
| EpisodeDetailWithQuery.EpisodePlayer.HandleClick | src/components/streaming/EpisodeDetailWithQuery.tsx:133-149 | absolute link: selected and recorded as its URL, no request; already resolved: only the selection changes; otherwise: the server becomes the loading one and its URL is requested, selection and URLs unchanged |
| EpisodeDetailWithQuery.EpisodePlayer.ReceiveReply | src/components/streaming/EpisodeDetailWithQuery.tsx:146-151 | as written: a rejected call leaves the server loading and its button disabled; null ends loading with nothing else changed; a URL ends loading, is recorded and selected |
| EpisodeDetailWithQuery.EpisodePlayer.ReceiveReplyCaught | src/components/streaming/EpisodeDetailWithQuery.tsx:146-151 | with the rejection read as null, loading always ends; a URL is recorded and selected, anything else changes neither |
| EpisodeDetailWithQuery.ResolvedUrlOrNull | src/lib/api-client.ts:91-95 | the client's resolver with rejection read as null yields a URL exactly when configured and the reply carries a non-empty `data.url` |
| ApiClient.RequestUrl | src/lib/api-client.ts:22-27 | no request exactly when base or secret is empty; otherwise base followed by the path |
| ApiClient.ClientFetch | src/lib/api-client.ts:18-39 | `{ ok: false }` without base or secret; rejects exactly when configured and fetch or parse throws; `{ ok: true, data }` exactly for a configured 2xx valid envelope, with its data |
| ApiClient.FetchDetailClient | src/lib/api-client.ts:78-88 | the data exactly when the call is ok, null for any other resolved call, and a rejection passed on |
| ApiClient.DetailClientAgrees | src/lib/api-client.ts:78-88 | configured and not thrown, the client's detail equals the server-side fetcher's for the same reply |
| ApiClient.ServerUrlClientAgrees | src/lib/api-client.ts:91-95 | the browser resolver requests the same URL and settles the same way as the select-box resolver, for every id and reply |
| ApiClient.FetchScheduleClient | src/lib/api-client.ts:98-104 | rejects exactly when configured and thrown; `{ days: [] }` when unconfigured; otherwise the same schedule as the server-side fetcher |
| ApiClient.ClientHeroOf | src/lib/api-client.ts:61-70 | the hero takes the first series' title, poster and release date and an empty rating; it links to the series' `href`, or to "#" when it has none |
| ApiClient.FetchHomeDataClient | src/lib/api-client.ts:41-76 | rejects exactly when the call does; any other failure gives the default hero and empty lists; an ok call gives both payload lists and the hero of the first ongoing series, or the default hero |
| FetchAnime.ApiBaseAsWritten | src/lib/FetchAnime.ts:18 | as written: an object's `apiBase`, else the configured base; for absent or string options the base is the text "false" |
| FetchAnime.ApiBase | src/lib/FetchAnime.ts:18 | the intended base: the object's `apiBase` when present, the configured base otherwise |
| FetchAnime.ApiBaseAgreesOnObjects | src/lib/FetchAnime.ts:18 | the two agree exactly when the options are an object |
| FetchAnime.HomeRequestWithoutOpts | src/lib/FetchAnime.ts:18-28 | without options the home request goes to `false/otakudesu/home`, not to the configured base |
| FetchAnime.ApiSecret | src/lib/FetchAnime.ts:19 | an object's secret, a string option itself, else the environment's secret, else the public default |
| FetchAnime.ToHero | src/lib/FetchAnime.ts:41-49 | title and image come from the series and the rating is empty; a present release date and id are copied, and absent ones become "" |
| FetchAnime.CompletedHero | src/lib/FetchAnime.ts:71-79 | a completed series' slide takes its title, poster, and its rating from its score; a present last release date and id are copied, and absent ones become "" |
| FetchAnime.CarouselHeroesShape | src/lib/FetchAnime.ts:62-80 | the slides are the first min(3, ongoing) ongoing series in order, then completed ones in order up to three |
| FetchAnime.FetchHomeData | src/lib/FetchAnime.ts:17-88 | the result equals the specification `HomeDataSpec` for every reply |
| FetchAnime.ShapeHome | src/lib/FetchAnime.ts:51-81 | the body after the envelope check produces the lists, hero and slides of the payload |
| FetchAnime.OngoingSlides | src/lib/FetchAnime.ts:62-67 | the `for` loop yields the hero of each of the first min(3, n) ongoing series, in order |
| FetchAnime.FillFromCompleted | src/lib/FetchAnime.ts:68-80 | the `while` loop keeps the slides it was given and appends completed series in order until there are three or the list runs out |
| FetchAnime.HeroesAtMostThree | src/lib/FetchAnime.ts:64-69 | never more than three slides |
| FetchAnime.HeroesEmptyOnlyWhenRejected | src/lib/FetchAnime.ts:34-37 | the slides are empty exactly when the status is not 2xx or the envelope is invalid; a thrown error and a valid envelope leave at least one |
| FetchAnime.HeroesOrder | src/lib/FetchAnime.ts:62-81 | after a valid envelope there are min(3, ongoing + completed) slides when that is positive, ongoing first, then completed, each rated by its score |
| FetchAnime.HomeListsAndHero | src/lib/FetchAnime.ts:20-59 | without a valid envelope the lists are empty and the hero is the default; with one, both lists are the payload's and the hero is the first ongoing series when there is one |
| FetchAnime.FetchDetail | src/lib/FetchAnime.ts:90-113 | the data exactly for a 2xx valid envelope; null on any other status, envelope or thrown error |
| FetchAnime.FetchSchedule | src/lib/FetchAnime.ts:209-232 | the payload's `days` when the envelope is valid and has them; `{ days: [] }` otherwise |
| HeroCarousel.SlideCount | src/components/anime/hero/HeroCarouselClient.tsx:61 | the track length is the slide count, plus two when there is more than one slide |
| HeroCarousel.ExtendedSlidesShow | src/components/anime/hero/HeroCarouselClient.tsx:52-61 | the track has `slideCount` positions, and each shows the slide its real index names, which is always a real slide |
| HeroCarousel.CopiesMatch | src/components/anime/hero/HeroCarouselClient.tsx:52-59 | the back copy shows what position 1 shows and the front copy what position `total` shows |
| HeroCarousel.GoToSlideRoundTrip | src/components/anime/hero/HeroCarouselClient.tsx:119-125 | going to real slide r puts the track at r + 1, whose real index is r |
| HeroCarousel.TrendNumIsRealIndex | src/components/anime/hero/HeroCarouselClient.tsx:119-136 | the number printed at a position is its real index plus one, between 1 and total |
| HeroCarousel.HeroCarousel.constructor | src/components/anime/hero/HeroCarouselClient.tsx:62 | the index starts at 1 with copies and at 0 otherwise |
| HeroCarousel.HeroCarousel.Next | src/components/anime/hero/HeroCarouselClient.tsx:66-70 | one step on, saturating at the back copy, with the skip flag cleared; no change with at most one slide |
| HeroCarousel.HeroCarousel.Prev | src/components/anime/hero/HeroCarouselClient.tsx:72-76 | one step back, saturating at the front copy, with the skip flag cleared; no change with at most one slide |
| HeroCarousel.HeroCarousel.GoToSlide | src/components/anime/hero/HeroCarouselClient.tsx:121-125 | the index becomes r + 1 with the skip flag cleared, and the slide shown is real slide r |
| HeroCarousel.HeroCarousel.SettleClone | src/components/anime/hero/HeroCarouselClient.tsx:79-95 | the back copy jumps to 1 and the front copy to total with the skip flag set; the slide shown and its real index do not change |
| HeroCarousel.HeroCarousel.ClearSkip | src/components/anime/hero/HeroCarouselClient.tsx:97-102 | the skip flag is cleared |
| ChapterReader.TotalPages | src/services/useStateChapter.ts:32 | the total is the number of pages, but at least 1 |
| ChapterReader.FirstContaining | src/services/useStateChapter.ts:38-45 | the first page whose top-to-bottom range contains the centre, or none when no page does |
| ChapterReader.LastReached | src/services/useStateChapter.ts:46 | the last page whose top the centre has reached, or none |
| ChapterReader.PageAtInRange | src/services/useStateChapter.ts:37-48 | the chosen page lies in [1, total], so the clamp never changes it |
| ChapterReader.Clamp | src/services/useStateChapter.ts:48 | the result lies in [1, total] and equals the page when it already does |
| ChapterReader.CurrentPage | src/services/useStateChapter.ts:37-48 | the scan with early exit and clamp gives the first page containing the centre, else the last page reached, else 1 |
| ChapterReader.ScrollPercent | src/services/useStateChapter.ts:49-51 | 0 when there is nothing to scroll |
| ChapterReader.ScrollPercentBounds | src/services/useStateChapter.ts:49-51 | within the scrollable height the percentage lies in [0, 100], reaching both ends |
| ChapterReader.OnKeyDown | src/services/useStateChapter.ts:67-85 | space scrolls exactly when the reader is present and focus is not in an INPUT or TEXTAREA; Ctrl/Meta + m toggles the sidebar exactly when pressed |
| Text.TrimSpec | src/services/episodeServerQuality.ts:92 | trimming keeps the slice between the leading and trailing white space, and is empty exactly for all-white-space input |
| Text.TrimIdempotent | src/services/episodeServerQuality.ts:125-126 | trimming twice is trimming once |
| Text.DigitsSpec | src/services/episodeServerQuality.ts:18 | removing non-digits keeps a string made only of digits whole and empties a string with no digit |
| Text.DigitsAppend | src/services/episodeServerQuality.ts:18 | removal works piece by piece: the digits of `a + b` are those of `a` followed by those of `b`; with `DigitsSpec`, a mixed label such as "1080p60" keeps exactly its digits, in order |
| Text.DecimalRoundTrip | src/lib/FetchAnime.ts:43 | a rendered whole number reads back as itself |

## Left out

- Network I/O is left out: `fetch`, `res.json()`, headers, the environment variables and `src/lib/api-auth.ts`. Each reply is an input value. It says whether the request failed, whether the status was 2xx, whether the body parsed, and the envelope's `ok` and `data`. A thrown error is modelled only where the fetch or the JSON parse throws.
- DOM lookups are assumed to succeed: the container, the selects, the iframe, the loading element and the label. Parsing the lookup attribute, `escapeHtml` and the option markup are not modelled. Only the option values are kept.
- Timers are not modelled. The clone-reset delay, the 50 ms skip-flag clear, autoplay and the keyboard-hint timeout become the explicit steps `SettleClone` and `ClearSkip`, or are left out.
- `parseInt` precision on very long digit strings is not modelled; the sort key is an unbounded natural number.
- Episode counts are taken as whole numbers when rendered into hero descriptions.
- The constant `type: 'anime'` of hero records is not kept.
- Entries of the home lists are assumed to be objects. A `null` element, which would make the `try` block throw midway, is not modelled.
- The server-side home fetcher reads `data.ongoing.animeList` from `/otakudesu/home`. The browser client reads `data.ongoingList` from `/home`. Both are given the already-extracted lists as `HomePayload`, and no agreement between the two fetchers is claimed.
- ChapterReader.ScrollPercent: computed on mathematical reals, not IEEE doubles. The page tops, heights and the viewport centre are given as integers, although `clientHeight / 2` may be fractional. The scroll amount `innerHeight * 0.8` and the sidebar's presence are not modelled.
- EpisodeDetailWithQuery.EpisodePlayer.HandleClick: a click that issues a request requires that no other request is in flight. Overlapping resolutions, which the component allows for different servers, are not modelled, and neither are replies arriving after navigation.
- EpisodeDetailWithQuery.EpisodePlayer.HandleClick: `resolvedUrls` starts as a plain object (line 19), so `resolvedUrls[serverId]` at line 141 also reads properties inherited from `Object.prototype`. For a server id such as `constructor` or `toString`, the component finds a truthy value, selects the server without a request and puts that inherited value in the frame source. The model's `map` holds only stored URLs. So for such ids it issues a request instead, and this behaviour is not modelled. The select box is not affected, because its cache keys always contain a bar.
- EpisodeDetailWithQuery.FrameSrc: for the same reason, an inherited property read at line 105 is not modelled. A selected id with no stored URL shows the default stream.
- EpisodeServerQuality.ServerQualitySelect.OnQualityChange: requires the quality selector to be enabled, since a disabled select fires no change event. For the same reason OnServerChange requires the server selector to be enabled.
- React rendering, React Query caching and the presentational components are left out, and so are `astro.config.mjs` and the type declarations, apart from the shapes they give the datatypes.
- The other fetch wrappers are not modelled: `src/lib/FetchDrakor.ts`, `src/lib/FetchFIlm.ts`, `src/lib/FetchManga.ts`, `src/lib/FetchEnvironment.ts` and the older `services/FetchAnime.ts`. They repeat the envelope check modelled by `ClientFetch` and `FetchDetail`.
- The `ServerItem` type in `src/lib/FetchAnime.ts` declares no `href`, but the button variant reads one. The model gives `ServerItem` an `href` field.
- FetchAnime.FetchDetail: models only how the reply settles, not the URL requested. Lines 94, 171 and 210 of `src/lib/FetchAnime.ts` choose the base with the same expression as line 18. So the detail, episode and schedule fetchers also request `false/…` when their options are not an object, as `ApiBaseAsWritten` states.
- FetchAnime.FetchSchedule: as for `FetchDetail`, the requested URL is not modelled.
- EpisodeServerQuality.CacheKey: server ids and quality labels are not assumed to be free of `|`. `CacheKeyCollides` shows two entries that then share a cache slot, and `CacheKeySeparates` shows the key is unambiguous when server ids contain no bar.

## Findings

| source | as written | input that shows it | evidently intended | confidence | as-written member | corrected member |
|---|---|---|---|---|---|---|
| src/services/episodeServerQuality.ts:160-174 | the completion callback is attached with `.then` only, so a rejected `fetchServerUrl` never runs it | base and secret set, and the request fails (a network error) or a 2xx body is not JSON: both selectors stay disabled and the frame stays hidden for good | a failed resolution re-enables the selectors and shows the previous frame, as a null URL does | not executed | EpisodeServerQuality.ServerQualitySelect.ReceiveReply, EpisodeServerQuality.NetworkErrorRejects | EpisodeServerQuality.ServerQualitySelect.ReceiveReplyCaught |
| src/components/streaming/EpisodeDetailWithQuery.tsx:145-151 | `setLoadingServerId(null)` follows the `await` with no `try`, so a rejected `fetchServerUrlClient` skips it | base and secret set and the request fails: that server stays the loading one and its button stays disabled | loading ends on every outcome, as it does for a null URL | not executed | EpisodeDetailWithQuery.EpisodePlayer.ReceiveReply, ApiClient.ClientFetch | EpisodeDetailWithQuery.EpisodePlayer.ReceiveReplyCaught |
| src/lib/FetchAnime.ts:18 | the type test on `opts` yields `false` for absent or string options, and the nullish fallback does not replace `false`; the same expression picks the base of the detail, episode and schedule fetchers at lines 94, 171 and 210 | `fetchHomeData()` with no options requests `false/otakudesu/home` | the configured `API_BASE` whenever no object `apiBase` is given | not executed | FetchAnime.ApiBaseAsWritten, FetchAnime.HomeRequestWithoutOpts | FetchAnime.ApiBase |
