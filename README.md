# bsp-scraper, modelled in Dafny

This project models the core of `bsp-scraper`. The scraper reads the
Bangko Sentral ng Pilipinas list of regulatory issuances, one page at a time,
from a SharePoint-style REST endpoint. It normalises each raw record into the
shape it hands to callers, including a PDF download link taken from the
record's HTML content. The records reach callers through two HTTP handlers:
`GET /issuances`, which drains every page, and `GET /issuances/paginated`,
which returns one page.

The modules follow the source files:

| module | file | models |
|---|---|---|
| `Types` | `types.dfy` | The records of `src/types.ts`, restricted to the fields the core reads. Also the abstract shape of one upstream request and of its outcome. |
| `Text` | `text.dfy` | The JavaScript builtins the core relies on, written out: `includes`/`startsWith`, the template-literal rendering of a number, `parseInt` without a radix, and `encodeURIComponent` on ASCII text. |
| `Scraper` | `scraper.dfy` | `BspIssuanceScraper` of `src/scraper.ts`: option defaults and the constructor's check, link extraction, normalisation, and the query URL. |
| `Scraper` (paging) | `scraper.dfy` | The paging generator, as class `ChunkCursor` whose `Next` pulls it once, and the drain in `ScrapeAllIssuances`. Both are proved against the state machine `Step` and its run `RunChunks`. |
| `Route` | `route.dfy` | The two handlers of `src/route.ts`: query parsing with its fallbacks, the pagination guard, the answer shapes, and error mapping. |
| `ListServer` | `listserver.dfy` | A reference upstream that holds a fixed list of records and answers each request with the window `$skip`/`$top` select. End-to-end theorems for both handlers are stated against it. |

Modelling choices:

- **The upstream is a parameter.** It is a total function from `Request`
  (year range, `$skip`, `$top`) to a decoded envelope or a thrown value.
  `GenerateApiUrl` builds the exact query text for a request, and
  `ApiUrlDeterminesSkip` shows that the text pins down the offset.
- **The generator is a cursor.** `ChunkCursor` holds the generator's locals
  (`skip`, `chunksProcessed`, `hasMoreData`) plus a `finished` flag for a
  generator that has returned or thrown. It also keeps a ghost log of the
  requests issued so far.
- **Post-yield bookkeeping is done eagerly.** In the source, the offset
  advance and the short-page check run when the generator is resumed. In the
  model they run before the page is handed out. No caller can observe the
  difference.
- **JavaScript truthiness is explicit.** `options.x || default` treats absent,
  `0`, `NaN` and `""` alike.
  - A `chunkSize` of `0` or `NaN` becomes 100. Only a negative `chunkSize`
    makes the constructor throw.
  - A `maxChunks` of `0`, `NaN` or absent means no bound. A negative
    `maxChunks` stops the generator before its first fetch.
- **Numbers are what `parseInt` produces.** A query parameter that does not
  parse is `NaN`, and every comparison with `NaN` is false. So a `NaN` `page`
  or `pageSize` passes the handler's guard. A `NaN` `pageSize` then gives a
  scraper chunk size of 100, and `hasMore` is always false. A `NaN` year is
  rendered as `NaN` into the date filter.
- **Draining needs an end.** The source's drain ends only when the upstream
  runs out of full pages, so `ScrapeAllIssuances` takes that as a
  precondition: either `maxChunks` is set, or every answer from some offset
  `bound` on ends the paging (`EndsFrom`). That covers every offset past
  `bound`, including offsets the generator never requests, so it excludes
  some upstreams that do not behave like a list but on which the drain still
  ends.

Behaviour of the code worth knowing, which the model keeps:

- A page size of 0 is not rejected: `||` turns it into 100, and only a
  negative value throws (`Configure`).
- Every `href` that starts with `/`, `//host/...` included, gets the base URL
  prepended (`ResolveHref`), so a download link need not be absolute.
- The paginated handler computes `skip` from `page` (`SkipFor`,
  src/route.ts:43, with `NaN` propagating) and never uses it. Every
  request it makes is for offset 0 (`PaginatedRequest`, `PaginatedIgnoresPage`).
- The date window runs from 16:00 UTC on December 31 of `yearStart` to
  15:59:59 UTC on December 31 of `yearEnd`. That is midnight to midnight in
  UTC+8, so the range covers the years after `yearStart` up to and including
  `yearEnd` (`ApiUrlEmbeds` states the bounds).

## Model

Several definitions carry no contract of their own; the rows below name them
where they state what those definitions do: `GenerateApiUrl` (the query URL),
`ResolveHref`, `FirstPdfLink` and `Normalize` (link extraction and
normalisation), `YearArgument` (the year defaults of the generator and the
drain), `RunChunks` (the generator's whole run), `JsParseInt` (`parseInt`),
`EncodeURIComponent`, `QueryNumber` (reading a query parameter with its
fallback), `PaginatedReply` (the paginated handler on the raw query),
`SkipFor` (the unused `skip`, src/route.ts:43), `InvalidPagination` (the
guard, src/route.ts:35), `ErrorMessage` (the message of a thrown value,
src/route.ts:23 and 84), `PagedOptions` (the one-chunk scraper's options,
src/route.ts:46-49), `IsPdfHref` (the link test, src/scraper.ts:28), and
`Flatten` with `AggregateOf` (the drain's concatenation and its result,
src/scraper.ts:125-131).

| member | source | states |
|---|---|---|
| Scraper.Configure | src/scraper.ts:10-19 | the constructor throws `chunkSize must be a positive number` exactly when `chunkSize` is a negative number; otherwise the page size is positive: the given one when truthy, else 100; `maxChunks` is kept when truthy, else no bound; `baseUrl` is kept when non-empty, else `https://www.bsp.gov.ph` |
| Scraper.BspIssuanceScraper.constructor | src/scraper.ts:10-14 | the fields get their defaults (absent, zero, `NaN` or empty values fall back), and pass the positivity check exactly when `Configure` succeeds, with the same settings |
| Scraper.NewScraper | src/scraper.ts:10-19 | `new BspIssuanceScraper(options)` throws exactly when `Configure` fails, with its error; otherwise it yields a fresh, valid scraper with the settings `Configure` computes |
| Scraper.FirstPdfLinkAt | src/scraper.ts:22-39 | `FirstPdfLink`, with `ResolveHref` for the prefix: when anchor `i` is the first whose `href` is non-empty and contains `.pdf`, the link is that `href`, with the base URL prepended exactly when it starts with `/` |
| Scraper.FirstPdfLinkNone | src/scraper.ts:22-39 | `FirstPdfLink` gives no link exactly when no anchor has a non-empty `href` containing `.pdf` |
| Scraper.FirstPdfLinkAppend | src/scraper.ts:26-37 | the scan stops at the first match: anchors after a matching prefix never change the result, and a prefix without a match is skipped over |
| Scraper.BspIssuanceScraper.ExtractDownloadLink | src/scraper.ts:22-39 | the loop over the anchors that breaks at the first match returns the first PDF link of the whole fragment |
| Scraper.ProcessIssuanceItems | src/scraper.ts:42-51 | one record per item, in order; each is `Normalize` of its item, which copies the five scalar fields and takes the item's PDF link as `downloadLink` |
| Scraper.ProcessAppend | src/scraper.ts:42-51 | normalising a concatenation is the concatenation of the normalised parts, so records are handled independently |
| Scraper.StartDate | src/scraper.ts:55 | the lower bound is ASCII, and escaping it leaves the year as rendered and turns each `:` into `%3A` |
| Scraper.EndDate | src/scraper.ts:56 | the same for the upper bound, `15:59:59` on December 31 of `yearEnd` |
| Scraper.ApiUrlExact | src/scraper.ts:54-65 | `GenerateApiUrl` is the query written out with its date bounds already escaped |
| Scraper.ApiUrlEmbeds | src/scraper.ts:54-65 | the query `GenerateApiUrl` builds carries both escaped date bounds, the moderation filter, `$top` set to the page size, `$skip` set to the offset, and the descending order on `DateIssued` |
| Scraper.ApiUrlDeterminesSkip | src/scraper.ts:63-64 | two queries that differ only in their offset are different strings, so each page's URL determines its offset |
| Scraper.Step | src/scraper.ts:95-118 | a pull fetches only while data may remain and the chunk bound is not reached; when it fetches, it throws the fetch error, ends on a missing or empty list, and otherwise yields the normalised list, short or full; after it, the offset has advanced by the page size, one more chunk is counted, and more data is expected exactly when the page came back full; anything but a page finishes the generator |
| Scraper.StepKeepsInv | src/scraper.ts:91-92 | a pull keeps the offset equal to the pages consumed times the page size |
| Scraper.StepDecreases | src/scraper.ts:95-118 | under the termination premise each pull strictly decreases the pulls remaining |
| Scraper.ChunkCursor.constructor | src/scraper.ts:91-93 | a fresh generator starts at offset 0 with no chunk counted and more data expected, and has issued no request |
| Scraper.ChunkCursor.Next | src/scraper.ts:95-118 | `generator.next()` produces what `Step` says, moves the generator to `Step`'s new state, logs the one request it issues (or none), and keeps the offset invariant |
| Scraper.BspIssuanceScraper.ScrapeIssuancesInChunks | src/scraper.ts:87-93 | calling the generator method fetches nothing; the generator it returns is at the start state, with the year defaults 2014 and 2025 applied to absent arguments (`YearArgument`, src/scraper.ts:88-89) |
| Scraper.RunUnfold | src/scraper.ts:95-118 | `RunChunks`, the generator's whole run, is one pull followed by the run from the new state, and stops at the first pull that yields no page |
| Scraper.RunFirstRequest | src/scraper.ts:96-102 | a run issues a request exactly when its first pull fetches, and that request asks for the current offset |
| Scraper.RunRequestOffsets | src/scraper.ts:102-111 | the k-th request asks for offset `skip + k * pageSize` with the configured page size and the same year range: requests are strictly sequential |
| Scraper.RunPagesMatchFetches | src/scraper.ts:102-109 | every yielded page is the normalisation of the non-empty item list returned by the request of the same index, and at most one further request follows the last page |
| Scraper.RunContinuesAfterFullPages | src/scraper.ts:105-116 | a request is followed by another only when it returned a full page |
| Scraper.RunRespectsMaxChunks | src/scraper.ts:96-98 | with a chunk bound `m`, no more than `m` minus the chunks already counted are requested |
| Scraper.RunThrowsOnFailure | src/scraper.ts:102 | the sequence throws exactly when its last request failed, with that failure, and no page comes from the failing request |
| Scraper.RunStopsWhen | src/scraper.ts:96-116 | a run's last request, when it yields no page, failed or returned a missing or empty list; when the last request yielded a page, that page was short or the chunk bound was reached with it |
| Scraper.FlattenLength | src/scraper.ts:125-131 | the concatenated list is as long as all pages together |
| Scraper.FlattenAppend | src/scraper.ts:127-129 | concatenating pages distributes over joining page sequences |
| Scraper.DrainStep | src/scraper.ts:127-129 | one pull of the drain appends the page to what was collected, and the end or a throw settles the drain's result |
| Scraper.BspIssuanceScraper.ScrapeAllIssuances | src/scraper.ts:121-132 | with the same year defaults (`YearArgument`, src/scraper.ts:122-123), the drain returns every yielded page concatenated in order, or the generator's first throw with nothing collected |
| Text.IncludesIffOccurs | src/scraper.ts:28 | `includes` holds exactly when the needle occurs at some position |
| Text.DecodeEncode | src/scraper.ts:60-61 | escaping with `EncodeURIComponent` (`encodeURIComponent`) is undone by `decodeURIComponent`, so the date bounds reach the server unchanged |
| Text.EncodeUnreserved | src/scraper.ts:60-61 | text made only of characters `encodeURIComponent` leaves alone is not changed by it |
| Text.NatToString | src/scraper.ts:63-64 | the rendering of a number is a non-empty run of digits without a leading zero |
| Text.IntToStringInjective | src/scraper.ts:63-64 | distinct integers render as distinct strings |
| Text.JsParseIntRendered | src/route.ts:30-33 | `JsParseInt` (`parseInt`) reads back a rendered integer, and stops at the first character that cannot continue it |
| Route.YearStartFallbackValue | src/route.ts:8 | `QueryNumber` reads an absent or empty `yearStart` as 2014 |
| Route.YearEndFallbackValue | src/route.ts:9 | an absent or empty `yearEnd` reads as 2025 |
| Route.PageFallbackValue | src/route.ts:32 | an absent or empty `page` reads as 1 |
| Route.PageSizeFallbackValue | src/route.ts:33 | an absent or empty `pageSize` reads as 50 |
| Route.QueryNumberReadsGiven | src/route.ts:8-33 | `QueryNumber` reads a parameter that is present as written, whatever its fallback |
| Route.InvalidPaginationExactly | src/route.ts:35-40 | the guard lets through exactly a page of at least 1 and a page size from 1 to 500, or `NaN` in either, since every comparison with `NaN` is false |
| Route.PagedSettings | src/route.ts:46-49 | the one-chunk scraper always constructs, with one chunk of `pageSize` records, or 100 when `pageSize` is `NaN` |
| Route.PagedAnswer | src/route.ts:35-86 | the answer is 400 with the documented message exactly when the guard fails, and then no request is made |
| Route.PagedStep | src/route.ts:51-53 | the one pull fetches offset 0 with the page size, then yields the page, ends on an empty or missing list, or throws the fetch error |
| Route.Paginated | src/route.ts:35-86 | the handler after parsing: validate, build the one-chunk scraper, pull once and shape the answer; what it answers and requests is what `PagedAnswer` states |
| Route.GetIssuancesPaginated | src/route.ts:28-87 | the handler on the raw query answers and requests what `PaginatedReply` states: `PagedAnswer` of the four parameters read by `QueryNumber` with their fallbacks |
| Route.PaginatedRequest | src/route.ts:42-53 | a valid query makes exactly one request, for the first `pageSize` records of its year range at offset 0 |
| Route.PaginatedIgnoresPage | src/route.ts:32-53 | two valid queries that differ only in `page` make the same request and list the same records with the same `hasMore` |
| Route.PaginatedListing | src/route.ts:55-79 | a 200 answer lists the normalised records of the one response (none for an empty or missing list), counts them, echoes `page` and `pageSize`, and has more exactly when the count equals `pageSize` |
| Route.PaginatedEmpty | src/route.ts:55-66 | when the one response has a missing or empty list, the answer is 200 with count 0, no records and `hasMore` false, echoing `page` and `pageSize` |
| Route.PaginatedFailure | src/route.ts:80-86 | the answer is 500 exactly when the one request failed, and then carries that error's message |
| Route.ServerError | src/route.ts:19-25 | a thrown `Error` is answered 500 with its message; any other thrown value with `Unknown error` |
| Route.DefaultScraperSettings | src/route.ts:11 | `new BspIssuanceScraper()` has the default base URL, pages of 100 and no chunk bound |
| Route.AggregateReply | src/route.ts:12-25 | a completed drain is answered 200 with the records and their number, without pagination; a throw is answered as `ServerError` |
| Route.GetIssuances | src/route.ts:6-26 | the handler answers with the default scraper's full drain over the parsed year range |
| Route.AggregateRequests | src/route.ts:6-26 | the drain requests pages of 100 at offsets 0, 100, 200 and so on; every page but the last came back full; the answer is 500 exactly when the last request failed; a 200 counts all the records of all pages |
| ListServer.ServeEnds | src/scraper.ts:105-116 | past its last record the list service answers only empty pages, so paging against it ends |
| ListServer.RunServesRest | src/scraper.ts:87-119 | against the list service, an unbounded run from any live offset yields exactly the records from that offset, normalised and in order, and never throws |
| ListServer.DrainServesAll | src/scraper.ts:121-132 | against the list service, an unbounded drain returns every record, normalised, in order |
| ListServer.IssuancesServesAll | src/route.ts:6-26 | against the list service, `GET /issuances` answers 200 with every record and their number |
| ListServer.PaginatedServesFirstPage | src/route.ts:28-79 | against the list service, a valid paginated query answers with the first `pageSize` records whatever the page, and reports more exactly when that page is full |

## Left out

- HTTP and logging. The model leaves out `axios`, its headers, `console.log`/`console.error`, the framework's request context and `c.json`'s JSON serialisation (which writes `NaN` as `null`). The upstream is a parameter, and `fetchChunk` re-throws whatever the request throws, which `FetchFailed` carries.
- A record whose `Content` is not a string (null or absent) is not modelled: `Content` is always a list of anchors. The source passes it to `cheerio.load` as it is.
- HTML parsing. cheerio's parse of the `Content` field is left out. The model takes the `href` attribute of each `<a>` element, in document order, as given.
- Asynchrony. Awaiting and the async generator protocol become synchronous calls: `Next` is one `generator.next()`, and `ScrapeAllIssuances` is the `for await` loop.
- Scraper.BspIssuanceScraper.ScrapeAllIssuances: adds the premise that `maxChunks` is set, or that every answer at every offset past some `bound` ends the paging (`EndsFrom`), requested or not. Without a premise the source's loop need not end, and nothing about its result could be stated. Because `EndsFrom` also constrains offsets the generator never requests, an upstream that does not behave like a list (say, empty at even offsets and full at odd ones) can fail the premise even though the drain ends on it.
- Route.GetIssuances: carries the same termination premise (`EndsFrom` over every offset past `bound`), for the default scraper.
- Numbers are integers or `NaN`, which is all `parseInt` and the defaults produce here. The model leaves out `parseInt`'s rounding of very long digit strings, `Infinity`, negative zero, and the exponent form (`1e+21`) a template literal uses for very large values.
- `encodeURIComponent` is modelled on ASCII text only, which covers every date bound, since a year renders as digits, `-` or `NaN`. UTF-8 escaping of other characters is left out.
- The white space `parseInt` skips is the ASCII blanks, the line terminators, no-break space, the byte order mark and the Unicode space separators, listed explicitly.
- `ScraperOptions.yearStart` and `yearEnd` are declared in `src/types.ts` but never read, so they are not modelled.
- `ApiResponse["odata.nextLink"]` is kept in the envelope but never read, as in the source.
- `src/index.ts` is not part of this model. It mounts both handlers under `/api` and starts the server.
- Bulk PDF download has no code in `src/scraper.ts` or `src/route.ts`, so there is nothing of it to model.
