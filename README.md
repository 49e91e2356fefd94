# German Dub (s.to) stream add-on — verified model of its request pipeline

The add-on answers a Stremio stream request `GET /stream/{type}/{id}.json` for an
IMDb id (`tt…`, with `:season:episode` for a series episode). It looks the id up
on OMDb (Cinemeta as fallback), searches s.to for the title, scrapes the first
hit's page (or episode page) for hoster links, follows each hoster's
`/redirect/<id>` to the off-site file host, and has Real-Debrid unrestrict that
link. Every hoster that survives both steps becomes one stream.

This project models the decision logic of `index.js` around its network and
HTML library calls:

- `StreamId` — the split of the request id and `parseInt` of its parts
  (`Numbers`: `parseInt` with white space, sign, `0x` prefix and NaN; the text
  `${n}` of such a number).
- `Search` — `searchSto`: anchors kept when their `href` names the requested
  kind (`/filme/` for `movie`, `/serie/` for `series`), made absolute.
- `Hosters` — `getHosters`: the episode URL, and the three selector tiers,
  each looser one tried only when the stricter ones found nothing.
- `Redirects` — `resolveRedirect`: six strategies, first one wins.
- `Meta` — `getMetaInfo`: OMDb first, Cinemeta only after an OMDb miss.
- `Debrid` — `unrestrictWithRD`.
- `Streams` — `handleStream`: the early exits, the first search hit, and the
  per-hoster resolve-then-unrestrict loop that skips failures and keeps order.

The services are oracle functions in `Net.Network` (each answer is
`Failed` when the request throws, or the parsed response). The HTML parser's
results are records already extracted per selector (`Site`). A run also
returns the list of requests it sent, so "no request without an API key" and
"Cinemeta only after an OMDb miss" are stated on that list. The
Real-Debrid key, a process-wide constant read from `RD_API_KEY` in the source,
is a parameter of `HandleStream`.

`Streams.HandleStream`, `Search.SearchSto`, `Hosters.GetHosters` and their
loops (`Hosters.CollectKeyed`, `Hosters.CollectRedirects`,
`Streams.ProcessHosters`) are methods that follow the source's `.each`/`for`
loops and `push` calls. `HandleStream`, `SearchSto`, `GetHosters`,
`CollectKeyed` and `ProcessHosters` are each proved equal to a specification
function (`Streams.Pipeline`, `Search.SearchResults`, `Hosters.HostersOf`,
`Seqs.FilterMap`); `CollectRedirects` is proved element by element to push
one `Hosters.RedirectHoster` per anchor, in order. The lemmas below state
what those functions promise.

## Model

| member | source | states |
|---|---|---|
| `Text.Includes` | index.js:44-45 | `includes` is true exactly when the needle occurs at some position of the string |
| `Text.TrimIsMiddle` | index.js:42 | `trim` returns a middle slice of its argument with only white space cut from both ends; the result neither starts nor ends with white space |
| `Text.TrimEmptyIffAllSpace` | index.js:43 | trimmed text is empty (falsy) exactly when the text is all white space |
| `Text.JoinSplit` | index.js:287 | `split(':')` loses nothing: joining the parts with `:` gives back the id |
| `Text.SplitAppend` | index.js:287 | splitting at a separator splits each side independently |
| `Numbers.ParseIntNumText` | index.js:289-290 | `parseInt` reads back every number it can produce (NaN or an integer) from the number's printed text |
| `Numbers.NumTextInjective` | index.js:69 | distinct season or episode numbers print to distinct texts |
| `StreamId.ParseIdImdbId` | index.js:287-288 | the IMDb id has no colon and is the whole id or the text before its first colon |
| `StreamId.ParseIdPresence` | index.js:289-290 | season is non-null iff the id has a colon, episode iff it has at least two |
| `StreamId.ParseIdIgnoresTail` | index.js:287-290 | anything after a third colon does not change the parse |
| `StreamId.ParseIdOfParts` | index.js:287-290 | `imdb:S:E` with a colon-free IMDb id parses back to exactly that id, season and episode |
| `Site.Absolute` | index.js:50 | a link starting with `http` is kept, any other gets `https://s.to` prepended; the result always starts with `http` |
| `Search.SearchSto` | index.js:21-61 | the loop returns exactly the filtered hits of the search response, none when the request failed |
| `Search.SearchResultMember` | index.js:40-54 | a hit is returned iff some anchor has a non-empty `href` containing the kind's path and non-blank text; the hit is the trimmed text and absolute URL |
| `Search.SearchOtherKindIsEmpty` | index.js:47 | a type other than `movie` or `series` yields no results |
| `Search.SearchInDocumentOrder` | index.js:40-54 | the k-th result comes from the k-th kept anchor in document order, and no kept anchor is skipped |
| `Hosters.EpisodeUrl` | index.js:66-70 | the target starts with the page URL and equals it exactly when season or episode is null |
| `Hosters.EpisodeUrlInjective` | index.js:66-70 | different seasons or episodes give different episode URLs |
| `Hosters.KeyedHoster` | index.js:89-101 | a tier-1/2 element gives a hoster iff its language key is `1` or `3` and its link id is non-empty; redirect URL `https://s.to/redirect/<id>`; `German Dub` iff key `1`, else `German Sub` |
| `Hosters.CollectKeyed` | index.js:87-103 | the first (and second) selector pass pushes the hosters of the accepted elements, in order |
| `Hosters.CollectRedirects` | index.js:125-136 | the third pass pushes one hoster per `/redirect/` anchor, in order |
| `Hosters.GetHosters` | index.js:64-143 | returns the cascade of the fetched target page, none when the fetch failed |
| `Hosters.CascadeSingleTier` | index.js:105-136 | all entries come from one tier: tier 2 only when tier 1 is empty, tier 3 only when both are |
| `Hosters.KeyedTierMember` | index.js:91-100 | every tier-1/2 hoster comes from an element with key `1`/`3` and a non-empty link id; its URL, language and name (heading text, else second candidate, else `Unknown`) are determined by that element |
| `Hosters.CascadeEntries` | index.js:87-136 | every hoster has a non-empty name; tier-3 hosters are labelled `German` with an absolute redirect URL |
| `Hosters.KeyedTierInDocumentOrder` | index.js:87-103 | tier entries keep document order and skip no accepted element |
| `Redirects.ResolveRedirectFirstApplicable` | index.js:160-190 | the result is the first applicable of final URL, `location.href`, `window.location`, `data-url`, trimmed meta refresh, iframe; null iff none applies |
| `Redirects.OffSiteFinalUrlWins` | index.js:160-165 | a final URL that differs from the input and does not contain `s.to` is returned whatever the body holds |
| `Redirects.BlankMetaRefreshShadowsIframe` | index.js:179-188 | a blank meta-refresh `url=` returns the empty string, so a later iframe is never consulted |
| `Meta.OmdbHitWins` | index.js:238-244 | an OMDb hit is the result, with type `movie` kept and any other normalised to `series`; Cinemeta is not asked and cannot change the result or the requests sent |
| `Meta.CinemetaFallback` | index.js:246-256 | after an OMDb miss, Cinemeta's `meta` is the result, type unchanged, and null when Cinemeta failed or had none |
| `Meta.MetaRequestsOrder` | index.js:234-248 | OMDb is always asked first, Cinemeta exactly when OMDb answered without a hit, and nothing else |
| `Meta.MetaAbsentIff` | index.js:232-262 | no metadata iff OMDb failed, or it missed and Cinemeta failed or had no `meta` |
| `Debrid.UnrestrictWithRD` | index.js:214-223 | a direct link exactly when the reply has a non-empty `download`, whose value is the link's URL |
| `Streams.HandleStream` | index.js:274-359 | the handler returns the streams and sends the requests of the pipeline specification |
| `Streams.ProcessHosters` | index.js:317-351 | the per-hoster loop returns the streams of the successful hosters, in order, and sends redirect then unrestrict requests |
| `Streams.NoKeyNoRequests` | index.js:279-282 | without an API key the result is empty and no request is sent |
| `Streams.EarlyExits` | index.js:292-306 | without metadata, or without search results, the result is empty and no page is fetched |
| `Streams.OnlyFirstHitUsed` | index.js:310-313 | two searches agreeing on the first hit give the same streams and requests |
| `Streams.HosterStreamIff` | index.js:319-343 | a hoster yields a stream iff its redirect resolved to a non-empty URL and Real-Debrid unrestricted it; the stream plays the `download` URL under binge group `germandub-<imdbId>` |
| `Streams.LaterHostersUnaffected` | index.js:317-351 | streams and requests of a hoster list are those of its parts in order: a failing hoster does not stop later ones |
| `Streams.StreamsOfSuccessfulHosters` | index.js:335-343 | every returned stream is named `German Dub` and grouped under `germandub-` plus the id's text before its first colon |
| `Streams.OneOfTwoHosters` | index.js:317-351 | with two hosters where only the first resolves and unrestricts, exactly one stream, from the first, results |

## Left out

- HTTP requests (axios), their headers, timeouts and redirect limit, and the OMDb, Cinemeta and Real-Debrid request formats: the services are oracle functions and a thrown request is `Failed`.
- HTML parsing (cheerio) and CSS selector semantics: each selector's matches are given as records in document order.
- The JavaScript regular expressions of `resolveRedirect`: the capture of each pattern is an input; the `trim` applied to the meta-refresh capture is modelled.
- `formatFileSize` and the stream title text: they use floating-point `Math.log`, `Math.pow` and `toFixed`. A stream keeps the hoster name and file size the title is built from.
- Express routes, landing page, manifest, `console` logging and the `process.env` read: plumbing. The API key is a parameter.
- Strings are sequences of Unicode scalar values, not UTF-16 code units.
- `Numbers.ParseInt`: integers are unbounded; the rounding of parts above 2^53 and the exponent notation of `${n}` from 1e21 on are not modelled.
- `Meta.GetMetaInfo`: OMDb's `Title`/`Year` and Cinemeta's `name`/`year`/`type` are taken to be strings; an absent field (JavaScript `undefined`) is not modelled.
- The `try`/`catch` blocks of `handleStream`: in the modelled path nothing throws outside the helpers, which catch their own errors.
- `index.js` does not deduplicate hosters by link id, truncate names, retry the search with simplified queries, canonicalise series URLs or use the year; the model follows it.
