# Sydney events aggregator: scraper, event store and subscription endpoint

This project models the core of a small event-aggregation backend in Dafny and proves properties of the model.

**Scraper.** The scraper visits a fixed list of event websites. For each one it:

- extracts events from the listing pages;
- for Sydney.com, walks up to three result pages;
- upserts the events into a MongoDB collection keyed by `(sourceId, source)`.

It runs again on a schedule.

**Subscription endpoint.** A visitor leaves an email address for an event. They are then sent to the event's ticket link, with an optional confirmation email.

**Modules.** Each module follows one piece of the program:

| module | file | models |
|---|---|---|
| `JsValues` | `js_values.dfy` | `undefined`, truthiness, `a || b`-style fallback chains, and expressions that may throw |
| `Numerals` | `numerals.dfy` | `${n}` and `parseInt` as the scraper uses them |
| `Urls` | `urls.dfy` | `new URL(ref, 'https://www.sydney.com').href` and `link.split('/').pop()` |
| `ReferenceResolution` | `reference_resolution.dfy` | reference resolution as section 5.2 of RFC 3986 defines it, against which `Urls.Resolve` is proved |
| `EventModel` | `event_model.dfy` | the `Event` schema: required paths, the unique `(sourceId, source)` key and the timestamp defaults |
| `Outcomes` | `outcomes.dfy` | one try/catch per item: an item emits an event, is skipped, or throws |
| `Extractors` | `extractors.dfy` | `scrapeEventsFromSite`: the card branch, the Sydney.com tile pass and its alternative-listing pass |
| `ExtractorFacts` | `extractor_facts.dfy` | identifier, isolation and card-branch properties |
| `PageWalk`, `Pagination` | `pagination.dfy` | `scrapeWithPagination` |
| `Persister` | `persister.dfy` | `saveEvents`: ordered upserts under one try/catch |
| `SourceLoop`, `Orchestrator` | `orchestrator.dfy` | `scrapeAllSources`, its source list, and the interval rule of `setupScraper` |
| `Subscriptions` | `subscriptions.dfy` | the `POST /` subscription handler |

**What the outside world becomes.**

- **Network and HTML parser.** These are replaced by what they deliver. `Env.fetch(url)` gives the parsed `Page` or `None` when the request or parse fails. A page is the cards, tiles and listing containers its selectors match, holding the trimmed texts and raw attributes the extractor reads.
- **Clock.** `Date.now()` is one reading per scraped page: `Env.pageClock(p)` for page `p` of the Sydney.com walk, `Env.nowMs` for a single-page scrape. Today's `YYYY-MM-DD` and the `now` of the store are one reading per run.
- **Database failures.** These are oracles. `rejects(e)` says that the upsert of `e` throws. `find` stands for `Event.findById`, and `saveOk` says whether `subscription.save()` resolves.

## Model

| member | source | states |
|---|---|---|
| JsValues.FirstNonEmpty | src/backend-code/scrapers/eventScraper.js:54-56 | a fallback chain of candidates and a default `d` yields the first truthy candidate, and yields `d` only when no candidate is truthy |
| JsValues.ThirdInChain | src/backend-code/scrapers/eventScraper.js:91-94 | with `data-id` and `id` both falsy, the identifier chain is decided by the link segment alone: the segment if non-empty, otherwise the fallback |
| Numerals.Dec | src/backend-code/scrapers/eventScraper.js:177 | `${n}` prints a non-empty run of decimal digits that starts with `0` only for zero |
| Numerals.DecRoundTrip | src/backend-code/scrapers/eventScraper.js:177 | the printed digits denote the number printed |
| Numerals.ParseIntReadsNumeral | src/backend-code/scrapers/eventScraper.js:283 | `parseInt` skips leading white space, reads an optional sign and the decimal numeral, and ignores whatever follows a non-digit |
| Numerals.ParseIntNoNumeral | src/backend-code/scrapers/eventScraper.js:283 | a setting whose first visible character is neither a sign nor a digit reads as `NaN` |
| Numerals.ParseIntDec | src/backend-code/scrapers/eventScraper.js:283 | `parseInt` reads back exactly the number a decimal numeral prints |
| ReferenceResolution.ResolveFollowsRfc3986 | src/backend-code/scrapers/eventScraper.js:74 | for every plain reference, the link `Resolve` gives is the one section 5.2 of RFC 3986 defines: the reference is split into path, query and fragment, its path is merged under the base path `/` when relative, dot segments are removed, and the result is recomposed under `https://www.sydney.com` |
| ReferenceResolution.SplitRecompose | src/backend-code/scrapers/eventScraper.js:74 | splitting a reference into path, query and fragment and recomposing the parts gives the reference back |
| ReferenceResolution.RemoveDotsKeepsPlainPath | src/backend-code/scrapers/eventScraper.js:74 | `remove_dot_segments` leaves a path in which no segment starts with `.` unchanged |
| Urls.Absolutize | src/backend-code/scrapers/eventScraper.js:82-84 | an empty, missing or `http`-prefixed link is kept; any other link becomes what `new URL` resolves it to, and a plain relative link becomes a truthy `http` link; it throws exactly when a truthy link without `http` is rejected by the parser |
| Urls.AbsolutizeIdempotent | src/backend-code/scrapers/eventScraper.js:73-75 | for a missing, empty, `http`-prefixed or plain link, making it absolute never throws and a second time changes nothing |
| Urls.AbsolutizeStable | src/backend-code/scrapers/eventScraper.js:73-75 | for any link that does not throw, making it absolute a second time changes nothing, provided the URL parser returns hrefs with a scheme that parse back to themselves |
| Urls.UnderOriginIsHttp | src/backend-code/scrapers/eventScraper.js:74 | a URL under `https://www.sydney.com` starts with `http`, so the `startsWith('http')` test keeps it |
| Urls.LastSegment | src/backend-code/scrapers/eventScraper.js:93 | `split('/').pop()` is the longest slash-free suffix of the link |
| Urls.LastSegmentOfResolved | src/backend-code/scrapers/eventScraper.js:82-93 | a plain link gives the same identifier after resolution as before it |
| Urls.AbsolutizeKeepsSegment | src/backend-code/scrapers/eventScraper.js:78-93 | a plain ticket link survives `Absolutize` without throwing, stays truthy, and keeps its last segment |
| Urls.EventLinkExample | src/backend-code/scrapers/eventScraper.js:82-84 | `/events/42` becomes `https://www.sydney.com/events/42` |
| Urls.SegmentAfterLastSlash | src/backend-code/scrapers/eventScraper.js:93 | the identifier of `…/b`, for a slash-free `b`, is exactly `b` |
| EventModel.Failing | src/backend-code/models/Event.js:7-46 | a path is reported missing exactly when it is among the checked paths and the document fails it |
| EventModel.SatisfiesAll | src/backend-code/models/Event.js:7-46 | a document meets every `required: true` exactly when all ten fields hold a value |
| EventModel.MissingPaths | src/backend-code/models/Event.js:7-46 | validation lists exactly the paths a document fails, and lists none exactly when every required field is present |
| EventModel.NewDocument | src/backend-code/models/Event.js:6-55 | a new document is created exactly when all required fields are present; it keeps the fields, and `createdAt`/`updatedAt` default to the current time unless supplied; otherwise it is rejected with the missing paths |
| Outcomes.EmittedEvents | src/backend-code/scrapers/eventScraper.js:44-114 | a page's events are exactly the events its items emitted: each emitted event is kept, nothing else appears, and there are never more events than items |
| Outcomes.EmittedEventsAppend | src/backend-code/scrapers/eventScraper.js:44-114 | item order is kept: the events of two runs of items are those of the first run followed by those of the second |
| Outcomes.Flatten | src/backend-code/scrapers/eventScraper.js:121-157 | events collected container by container contain every container's events and nothing else |
| Outcomes.FlattenAppend | src/backend-code/scrapers/eventScraper.js:121-157 | collecting two runs of containers gives the first run's events followed by the second's |
| Outcomes.FlattenOne | src/backend-code/scrapers/eventScraper.js:121-157 | a single container's events are collected as they stand |
| Outcomes.EmittedEventsCount | src/backend-code/scrapers/eventScraper.js:96-113 | the page has one event per emitting item |
| Outcomes.AllButOneEmitted | src/backend-code/scrapers/eventScraper.js:45-113 | one item that throws or is skipped costs exactly its own event |
| Extractors.CardEvents | src/backend-code/scrapers/eventScraper.js:15-41 | every `.event-card` becomes one event, in page order, its fields copied unchecked |
| Extractors.TileDateText | src/backend-code/scrapers/eventScraper.js:51-57 | the date text is the first non-empty of `.event-date`, `.date-display`, the `startDate` content, and today |
| Extractors.TileSourceId | src/backend-code/scrapers/eventScraper.js:91-94 | a truthy `data-id` is the identifier; otherwise a truthy `id`; otherwise the chain throws exactly when there is no link, and is the link's last segment or, when that is empty, `sydney-<index>-<now>` |
| Extractors.ExtractTile | src/backend-code/scrapers/eventScraper.js:45-113 | a tile emits an event exactly when it has a title, its image link resolves, and its ticket link resolves to a truthy value; it throws exactly in the three throwing cases; an emitted event has every default and fallback the source writes, and all ten required fields |
| Extractors.PrimaryPass | src/backend-code/scrapers/eventScraper.js:44-114 | the primary pass keeps exactly the events the tiles emit, all of them complete Sydney.com records |
| Extractors.AltItemOutcome | src/backend-code/scrapers/eventScraper.js:123-155 | an item is kept exactly when it has a heading and a truthy resolved link, and throws exactly when resolution throws; a kept item has the fixed time, venue, image and price, the current instant, and `sydney-alt-<i>-<j>` |
| Extractors.AltListing | src/backend-code/scrapers/eventScraper.js:122-156 | a container's events are exactly the events of its kept items |
| Extractors.AltPass | src/backend-code/scrapers/eventScraper.js:121-157 | every event of the alternative pass comes from some container, and every container's events are in it |
| Extractors.SydneyComEvents | src/backend-code/scrapers/eventScraper.js:42-158 | the alternative pass runs exactly when no tile emitted an event; otherwise the primary pass's events are the result |
| Extractors.ScrapeSite | src/backend-code/scrapers/eventScraper.js:8-167 | a failed fetch or unknown source yields no events; every event carries the requested source name; a card source yields the card events of the fetched page, one per card, and Sydney.com the tile-and-listing events of the fetched page |
| ExtractorFacts.AltIdInjective | src/backend-code/scrapers/eventScraper.js:150 | different positions in the alternative listings never share an identifier |
| ExtractorFacts.SyntheticIdInjective | src/backend-code/scrapers/eventScraper.js:94 | fallback identifiers differ whenever the tile index or the instant differs |
| ExtractorFacts.AltIdNotSynthetic | src/backend-code/scrapers/eventScraper.js:94-150 | an alternative-pass identifier never equals a primary-pass fallback identifier |
| ExtractorFacts.TileIdFromLink | src/backend-code/scrapers/eventScraper.js:78-94 | a titled tile with no `data-id`/`id` and a plain ticket link is kept, and is identified by the link's last segment, or by the fallback when that segment is empty |
| ExtractorFacts.OneBadTileCostsOneEvent | src/backend-code/scrapers/eventScraper.js:45-113 | when exactly one tile fails, the primary pass still keeps all the others |
| ExtractorFacts.PrimaryPassStep | src/backend-code/scrapers/eventScraper.js:45-113 | the primary pass keeps tile order: the events of the first `k+1` tiles are those of the first `k`, followed by tile `k`'s event when it yields one |
| ExtractorFacts.AltPassStep | src/backend-code/scrapers/eventScraper.js:121-157 | the alternative pass keeps container order and count: no container gives nothing, and container `k` appends its own events, in item order, to those of the containers before it |
| ExtractorFacts.FallbackId | src/backend-code/scrapers/eventScraper.js:91-94 | an emitted tile with neither `data-id` nor `id`, whose ticket link ends in '/', is identified as `sydney-<index>-<now>` with the instant of its scrape |
| ExtractorFacts.DefaultImageIsHttp | src/backend-code/scrapers/eventScraper.js:104 | the fallback picture URL starts with `http` |
| ExtractorFacts.EmittedTileLinksAreHttp | src/backend-code/scrapers/eventScraper.js:69-105 | an emitted tile whose picture and ticket links are missing, empty, `http`-prefixed or plain has a picture URL and a ticket URL that both start with `http` |
| ExtractorFacts.EmittedItemLinksAreHttp | src/backend-code/scrapers/eventScraper.js:129-147 | an emitted item of the alternative listing whose link is missing, empty, `http`-prefixed or plain has a picture URL and a ticket URL that both start with `http` |
| ExtractorFacts.UntitledCardKept | src/backend-code/scrapers/eventScraper.js:17-40 | the card branch emits an untitled card, and schema validation would reject that event for its missing title |
| PageWalk.Walk | src/backend-code/scrapers/eventScraper.js:175-191 | the walk requests page `k` at `PageUrl(base, from+k)`, never more pages than the cap allows, nothing exactly when the cap is below the start; the events are those of the fetched pages, in order |
| PageWalk.WalkGoesOnOnlyAfterEvents | src/backend-code/scrapers/eventScraper.js:180-185 | every fetched page before the last yielded events |
| PageWalk.WalkEndsOnEmptyPage | src/backend-code/scrapers/eventScraper.js:175-183 | a walk that stops before the cap stops on a page with no events |
| PageWalk.StopsAtFirstEmptyPage | src/backend-code/scrapers/eventScraper.js:175-185 | when page `last` is the first empty one, exactly pages `from..last` are fetched |
| PageWalk.FetchesUpToCap | src/backend-code/scrapers/eventScraper.js:175-185 | when no page up to the cap is empty, every page up to the cap is fetched |
| PageWalk.PageUrlReadsBack | src/backend-code/scrapers/eventScraper.js:177 | page 1 is the base URL; any other page is the base URL with `?page=` and a value that `parseInt` reads back as the page number |
| PageWalk.PageUrlInjective | src/backend-code/scrapers/eventScraper.js:177 | different page numbers give different URLs |
| PageWalk.WalkFetchesDistinct | src/backend-code/scrapers/eventScraper.js:175-177 | a walk never requests the same URL twice |
| PageWalk.ThirdPageEmptyOfFive | src/backend-code/scrapers/eventScraper.js:175-185 | with pages 1 and 2 non-empty and page 3 empty, a cap of 5 fetches `base`, `base?page=2` and `base?page=3` |
| Pagination.ScrapeWithPagination | src/backend-code/scrapers/eventScraper.js:170-198 | Sydney.com is walked from page 1 under the cap, each page scraped at its own instant; any other source requests its base URL once; the events are those of the requested pages, in order |
| Pagination.FallbackIdsDifferAcrossPages | src/backend-code/scrapers/eventScraper.js:91-94 | when later pages are scraped at later instants, two tiles on different pages that both fall back to `sydney-<index>-<now>` get different identifiers, whatever their indices |
| Persister.Upsert | src/backend-code/scrapers/eventScraper.js:207-211 | the upsert replaces the fields under the event's key; it keeps existing timestamps, stamps an insert with the current time, leaves every other document alone and keeps keys unique |
| Persister.UpsertInsertsDefaults | src/backend-code/models/Event.js:47-54 | an insert of a complete event is the document the schema builds with its timestamp defaults |
| Persister.Accepted | src/backend-code/scrapers/eventScraper.js:202-225 | the events the loop reaches form the longest prefix with no throwing upsert; the next event, if any, throws |
| Persister.SaveAll | src/backend-code/scrapers/eventScraper.js:206-220 | after a batch, the store has the old keys plus the batch's keys; documents outside the batch are unchanged; keys stay unique |
| Persister.SaveAllTimestamps | src/backend-code/models/Event.js:47-54 | a batch never changes an existing document's timestamps, and stamps the documents it inserts with the current time |
| Persister.SavedRecord | src/backend-code/scrapers/eventScraper.js:206-211 | under each key of the batch, the store holds the last event with that key |
| Persister.SaveAllIdempotent | src/backend-code/scrapers/eventScraper.js:206-211 | saving the same batch again, at any later time, changes nothing |
| Persister.SaveEvents | src/backend-code/scrapers/eventScraper.js:201-226 | exactly the accepted prefix is saved; documents outside it are unchanged; keys stay unique; with no throwing upsert the whole batch is saved |
| Persister.FirstRejectionEndsBatch | src/backend-code/scrapers/eventScraper.js:202-225 | when the first throwing upsert is at `i`, exactly the events before `i` are saved |
| Persister.SaveEventsIdempotent | src/backend-code/scrapers/eventScraper.js:201-226 | re-running `saveEvents` on the same batch changes nothing |
| SourceLoop.SaveBatches | src/backend-code/scrapers/eventScraper.js:264-266 | saving batches one after another keeps keys unique |
| SourceLoop.NonEmptyResults | src/backend-code/scrapers/eventScraper.js:264-266 | only non-empty results are handed on, at most one per source |
| SourceLoop.NonEmptyResultsMembers | src/backend-code/scrapers/eventScraper.js:254-266 | a source's events are saved exactly when it yielded some |
| SourceLoop.ScrapeAll | src/backend-code/scrapers/eventScraper.js:254-273 | the loop saves the non-empty results in source order, leaves the store those saves produce, and requests each source's URLs in source order |
| SourceLoop.QuietRun | src/backend-code/scrapers/eventScraper.js:264-266 | when every source yields nothing, nothing is saved and the store is unchanged |
| SourceLoop.OneRequestPerSource | src/backend-code/scrapers/eventScraper.js:254-262 | sources fetched once each are requested exactly in list order |
| SourceLoop.QuietSourceIsAbsent | src/backend-code/scrapers/eventScraper.js:254-273 | a source that yields nothing leaves the saves and the store as if it were not listed |
| Orchestrator.PageCap | src/backend-code/scrapers/eventScraper.js:259 | a missing cap, and a cap of 0, become 3; any other cap is kept |
| Orchestrator.ScrapeSource | src/backend-code/scrapers/eventScraper.js:258-262 | a paginated source is walked under its cap; any other source is fetched once at its URL |
| Orchestrator.ScrapeAllSources | src/backend-code/scrapers/eventScraper.js:229-275 | a run saves at most three batches, none of them empty; its store is the result of those saves; keys stay unique |
| Orchestrator.FailedFetchQuiet | src/backend-code/scrapers/eventScraper.js:180-183 | a source whose first request fails yields nothing after exactly one request |
| Orchestrator.NothingFetchedNothingSaved | src/backend-code/scrapers/eventScraper.js:254-266 | when every request fails, each source is requested once, in order, and the store is unchanged |
| Orchestrator.SourcesCapped | src/backend-code/scrapers/eventScraper.js:233-239 | the paginated entry of the source list walks at most three pages |
| Orchestrator.IntervalMs | src/backend-code/scrapers/eventScraper.js:283 | the interval is never 0; an unset setting, an unreadable one and one that reads as 0 mean a day; any other parsed value is used as is |
| Orchestrator.IntervalOfNumeral | src/backend-code/scrapers/eventScraper.js:283 | a positive decimal setting is taken as it stands |
| Subscriptions.Subscribe | src/backend-code/routes/subscriptionRoutes.js:11-51 | 400, with no effect, exactly when email or eventId is falsy; 404 exactly when the event is missing, with no save; at most one save, of the body's subscription, before any email; an email is attempted exactly on success with opt-in; 500 exactly when the lookup or the save throws; success answers the stored event's ticket link |
| Subscriptions.SucceedsIff | src/backend-code/routes/subscriptionRoutes.js:20-45 | the handler answers 200 exactly when the body is complete, the event is found and the subscription is saved |
| Subscriptions.SubscribeStatus | src/backend-code/routes/subscriptionRoutes.js:15-50 | the handler answers 400 exactly when email or eventId is falsy, 404 exactly when the event is missing, 500 exactly when the lookup or the save throws, and 200 exactly when the event is found and the subscription saved |
| Subscriptions.OptInOnlyAddsEmail | src/backend-code/routes/subscriptionRoutes.js:35-38 | opting in leaves the answer unchanged and adds only the email attempt after the save |

## Left out

- **I/O and timing.** `axios`, `cheerio` and the HTML itself are left out. Pages are given already parsed, as what their selectors match, and `text()` results are given already trimmed. Also not modelled:
  - the 2-second and 3-second pauses;
  - `setInterval` itself: only the interval rule is modelled;
  - the standalone `require.main` run.

  A second run that `setInterval` starts while the first is still running is not modelled, because runs are sequential here.
- **Logging.** `console.log`/`console.error` are left out, and so are the inserted/updated counters of `saveEvents`, which only feed a log line.
- **URL parsing.** The WHATWG URL parser is modelled only for "plain" references. These have safe characters, no scheme or authority, no dot segments and nothing to percent-encode. Every other reference goes to the `Env.resolveOther` oracle, whose `None` stands for the `TypeError`.
- Urls.AbsolutizeIdempotent: only for links settled without the general URL parser. For other links, `Env.resolveOther` is an unconstrained oracle, so a second pass is stable only under the parser assumption that `Urls.AbsolutizeStable` states; the WHATWG parser is designed so that its hrefs meet it.
- ExtractorFacts.EmittedTileLinksAreHttp: only for links settled without the general URL parser, because `Env.resolveOther` results are unconstrained. An absolute link with another scheme (`data:`, `mailto:`, `ftp:`) fails `startsWith('http')` and goes to the parser, which returns it with its own scheme, so an emitted event can carry a link that does not start with `http`, as in the code.
- ExtractorFacts.EmittedItemLinksAreHttp: the same restriction, for the same reason.
- **Dates.** `new Date(text)` parsing is not modelled: a date is kept as the text it was built from, or as the instant of `new Date()`.
- EventModel.NewDocument: treats every `date` as a valid date. An unparsable text gives an Invalid Date (a card with an empty `.event-date`, for instance), which Mongoose's Date cast rejects; the model creates the document instead.
- **Clock.** The source reads `Date.now()` per tile and per upsert. The model takes one reading per scraped page, which the tiles of that page share; their different indices keep their fallback identifiers apart. It takes one `today` per run and one `now` for all upserts of a run.
- **Mongoose behaviour.** `findOneAndUpdate` is modelled with the following assumptions:
  - it replaces the event's fields;
  - it runs no validators;
  - it leaves `createdAt`/`updatedAt` of an existing document untouched;
  - on insert, it fills both with the current time.

  Undefined fields (`imageUrl`, `ticketUrl`, `sourceId` of a card) are stored as missing. Mongoose versions that drop undefined keys from an update instead keep the old values; that variant is not modelled. Which upserts throw (cast errors, index violations, connection loss) is the `rejects` oracle.
- **MongoDB ids.** `_id` values and `findById` are not modelled. The lookup is the `find` oracle.
- **Subscription schema.** Casting and validation are not modelled, nor is the `createdAt` default of `Subscription`. `optIn` is modelled as a JSON boolean or absent: a string such as `"yes"` is truthy in `if (optIn)`, and its casting by Mongoose is not modelled.
- **Confirmation email.** `sendConfirmationEmail` catches its own errors and returns a status that the handler ignores. The model records the attempt only.
- **Numbers.** `parseInt` is exact here, while JavaScript loses precision above 2^53. `setInterval`'s treatment of delays outside 1..2^31-1 is not modelled.
- Orchestrator.ScrapeAllSources: its contract states the bound and the store. The order and membership of the saved batches are stated generically by `SourceLoop.ScrapeAll` and `SourceLoop.NonEmptyResultsMembers`, which it instantiates.

In these respects the model keeps what the code does:

- an upsert does not refresh `updatedAt`;
- the first throwing upsert ends the whole batch;
- `scrapeAllSources` has no per-source try/catch, because `scrapeEventsFromSite` already turns every failure into an empty result;
- attributes (`src`, `href`, `data-id`) are not trimmed;
- the card branch applies no gate and no defaults.
