/** The HTTP handlers of src/route.ts: `GET /issuances`, which drains the
    scraper, and `GET /issuances/paginated`, which validates its paging
    parameters and answers with the first chunk of a one-chunk scraper. */
module Route {
  import opened Types
  import opened Text
  import opened Scraper

  /** The text each query parameter falls back to when it is absent or empty. */
  const YearStartFallback := "2014"
  const YearEndFallback := "2025"
  const PageFallback := "1"
  const PageSizeFallback := "50"

  const MaxPageSize := 500
  const InvalidPaginationMessage :=
    "Invalid pagination parameters. Page must be >= 1 and pageSize must be between 1 and 500."
  const UnknownErrorMessage := "Unknown error"

  /** The query parameters the handlers read; an absent parameter is `None`. */
  datatype Query = Query(yearStart: Option<string>, yearEnd: Option<string>, page: Option<string>, pageSize: Option<string>)

  datatype Pagination = Pagination(page: Num, pageSize: Num, hasMore: bool)

  /** The JSON body: `success: true` with the listing, or `success: false` with a message. */
  datatype Body =
    | Listing(count: int, issuances: seq<ExtractedIssuance>, pagination: Option<Pagination>)
    | ErrorBody(error: string)

  datatype HttpResponse = HttpResponse(status: int, body: Body)

  /** `parseInt(c.req.query(name) || fallback)`: an absent or empty parameter reads the fallback. */
  function QueryNumber(raw: Option<string>, fallback: string): Num
  {
    JsParseInt(if raw.Some? && raw.value != "" then raw.value else fallback)
  }

  /** An absent or empty parameter reads as its fallback's value: years 2014 to 2025, page 1 of 50. */
  lemma YearStartFallbackValue()
    ensures QueryNumber(None, YearStartFallback) == Finite(2014)
    ensures QueryNumber(Some(""), YearStartFallback) == Finite(2014)
  {
    assert NatToString(2014) == NatToString(201) + "4" && NatToString(201) == NatToString(20) + "1";
    assert NatToString(20) == NatToString(2) + "0";
    FallbackReads(2014, YearStartFallback);
  }

  lemma YearEndFallbackValue()
    ensures QueryNumber(None, YearEndFallback) == Finite(2025)
    ensures QueryNumber(Some(""), YearEndFallback) == Finite(2025)
  {
    assert NatToString(2025) == NatToString(202) + "5" && NatToString(202) == NatToString(20) + "2";
    assert NatToString(20) == NatToString(2) + "0";
    FallbackReads(2025, YearEndFallback);
  }

  lemma PageFallbackValue()
    ensures QueryNumber(None, PageFallback) == Finite(1)
    ensures QueryNumber(Some(""), PageFallback) == Finite(1)
  {
    FallbackReads(1, PageFallback);
  }

  lemma PageSizeFallbackValue()
    ensures QueryNumber(None, PageSizeFallback) == Finite(50)
    ensures QueryNumber(Some(""), PageSizeFallback) == Finite(50)
  {
    assert NatToString(50) == NatToString(5) + "0";
    FallbackReads(50, PageSizeFallback);
  }

  lemma FallbackReads(n: int, fallback: string)
    requires fallback == IntToString(n)
    ensures QueryNumber(None, fallback) == Finite(n)
    ensures QueryNumber(Some(""), fallback) == Finite(n)
  {
    JsParseIntRendered(n, "");
    assert fallback + "" == fallback;
  }

  /** A present parameter is read as written, whatever the fallback. */
  lemma QueryNumberReadsGiven(n: int, fallback: string)
    ensures QueryNumber(Some(IntToString(n)), fallback) == Finite(n)
  {
    JsParseIntRendered(n, "");
    assert IntToString(n) + "" == IntToString(n);
  }

  /** `a < b` and `a > b` for a number read by `parseInt`: false whenever `a` is `NaN`. */
  predicate Below(a: Num, b: int)
  {
    a.Finite? && a.value < b
  }

  predicate Above(a: Num, b: int)
  {
    a.Finite? && a.value > b
  }

  /** The guard that answers 400. */
  predicate InvalidPagination(page: Num, pageSize: Num)
  {
    Below(page, 1) || Below(pageSize, 1) || Above(pageSize, MaxPageSize)
  }

  /** The parameters the guard lets through: integers in range, or `NaN`, which every comparison rejects. */
  lemma InvalidPaginationExactly(page: Num, pageSize: Num)
    ensures !InvalidPagination(page, pageSize) <==>
      (page.NaN? || page.value >= 1) && (pageSize.NaN? || 1 <= pageSize.value <= MaxPageSize)
  {
  }

  /** `error instanceof Error ? error.message : 'Unknown error'` */
  function ErrorMessage(e: Thrown): string
  {
    if e.ErrorObject? then e.message else UnknownErrorMessage
  }

  function ServerError(e: Thrown): (r: HttpResponse)
    ensures r.status == 500 && r.body.ErrorBody?
    ensures e.ErrorObject? ==> r.body.error == e.message
    ensures e.OtherValue? ==> r.body.error == UnknownErrorMessage
  {
    HttpResponse(500, ErrorBody(ErrorMessage(e)))
  }

  /** `(page - 1) * pageSize`: computed by the handler and never passed on. */
  function SkipFor(page: Num, pageSize: Num): Num
  {
    if page.NaN? || pageSize.NaN? then NaN else Finite((page.value - 1) * pageSize.value)
  }

  /** The options the paginated handler constructs its scraper with. */
  function PagedOptions(pageSize: Num): ScraperOptions
  {
    ScraperOptions(None, Some(pageSize), Some(Finite(1)))
  }

  /** The page size the one-chunk scraper ends up with: the requested one, or 100 for `NaN`. */
  lemma PagedSettings(pageSize: Num)
    requires pageSize.NaN? || 1 <= pageSize.value <= MaxPageSize
    ensures Configure(PagedOptions(pageSize)).Success?
    ensures Configure(PagedOptions(pageSize)).value ==
      Config(DefaultBaseUrl, if pageSize.Finite? then pageSize.value else DefaultChunkSize, Some(1))
  {
  }

  // ---------------------------------------------------------------------------
  // GET /issuances/paginated

  /** What the paginated handler answers, and the upstream requests it issues,
      stated directly on the parsed parameters: one request for the first
      `pageSize` records of the year range, whatever the page. */
  function PagedAnswer(yearStart: Num, yearEnd: Num, page: Num, pageSize: Num, upstream: Upstream): (r: (HttpResponse, seq<Request>))
    ensures r.0.status == 400 <==> InvalidPagination(page, pageSize)
    ensures r.0.status == 400 ==> r.0.body == ErrorBody(InvalidPaginationMessage) && r.1 == []
  {
    if InvalidPagination(page, pageSize) then (HttpResponse(400, ErrorBody(InvalidPaginationMessage)), [])
    else
      var request := Request(yearStart, yearEnd, 0, if pageSize.Finite? then pageSize.value else DefaultChunkSize);
      var response := match upstream(request)
        case FetchFailed(e) => ServerError(e)
        case Fetched(data) =>
          var issuances := ProcessIssuanceItems(DefaultBaseUrl, if data.value.Some? then data.value.value else []);
          HttpResponse(200, Listing(|issuances|, issuances, Some(Pagination(page, pageSize, pageSize == Finite(|issuances|)))));
      (response, [request])
  }

  /** The same for the raw query. */
  function PaginatedReply(q: Query, upstream: Upstream): (HttpResponse, seq<Request>)
  {
    PagedAnswer(QueryNumber(q.yearStart, YearStartFallback), QueryNumber(q.yearEnd, YearEndFallback),
                QueryNumber(q.page, PageFallback), QueryNumber(q.pageSize, PageSizeFallback), upstream)
  }

  /** The `/issuances/paginated` handler: validate, build a scraper limited to one
      chunk of `pageSize` records, pull its generator once and shape the answer. */
  method GetIssuancesPaginated(q: Query, upstream: Upstream) returns (resp: HttpResponse, ghost requests: seq<Request>)
    ensures resp == PaginatedReply(q, upstream).0
    ensures requests == PaginatedReply(q, upstream).1
  {
    resp, requests := Paginated(QueryNumber(q.yearStart, YearStartFallback), QueryNumber(q.yearEnd, YearEndFallback),
                                QueryNumber(q.page, PageFallback), QueryNumber(q.pageSize, PageSizeFallback), upstream);
  }

  method Paginated(yearStart: Num, yearEnd: Num, page: Num, pageSize: Num, upstream: Upstream)
    returns (resp: HttpResponse, ghost requests: seq<Request>)
    ensures resp == PagedAnswer(yearStart, yearEnd, page, pageSize, upstream).0
    ensures requests == PagedAnswer(yearStart, yearEnd, page, pageSize, upstream).1
  {
    if InvalidPagination(page, pageSize) {
      return HttpResponse(400, ErrorBody(InvalidPaginationMessage)), [];
    }
    var skip := SkipFor(page, pageSize);
    PagedSettings(pageSize);
    PagedStep(yearStart, yearEnd, pageSize, upstream);
    var scraper := new BspIssuanceScraper(PagedOptions(pageSize));
    var generator := scraper.ScrapeIssuancesInChunks(Some(yearStart), Some(yearEnd));
    var result := generator.Next(upstream);
    requests := generator.requests;
    ghost var size := if pageSize.Finite? then pageSize.value else DefaultChunkSize;
    ghost var request := Request(yearStart, yearEnd, 0, size);
    assert requests == [request];
    if result.Done? {
      resp := HttpResponse(200, Listing(0, [], Some(Pagination(page, pageSize, false))));
      assert upstream(request).Fetched?;
      assert resp == PagedAnswer(yearStart, yearEnd, page, pageSize, upstream).0;
    } else if result.Yield? {
      var issuances := result.page;
      resp := HttpResponse(200, Listing(|issuances|, issuances,
                                        Some(Pagination(page, pageSize, pageSize == Finite(|issuances|)))));
      assert resp == PagedAnswer(yearStart, yearEnd, page, pageSize, upstream).0;
    } else {
      resp := ServerError(result.thrown);
      assert resp == PagedAnswer(yearStart, yearEnd, page, pageSize, upstream).0;
    }
  }

  /** The one pull of a scraper limited to one chunk: it fetches the first page, then
      yields it, ends on an empty or missing list, or throws the fetch error. */
  lemma PagedStep(yearStart: Num, yearEnd: Num, pageSize: Num, upstream: Upstream)
    requires pageSize.NaN? || 1 <= pageSize.value <= MaxPageSize
    ensures var size := if pageSize.Finite? then pageSize.value else DefaultChunkSize;
      var cfg := Config(DefaultBaseUrl, size, Some(1));
      var request := Request(yearStart, yearEnd, 0, size);
      var step := Step(cfg, yearStart, yearEnd, upstream, Start);
      && StepRequests(cfg, yearStart, yearEnd, Start) == [request]
      && (upstream(request).FetchFailed? ==> step.0 == Threw(upstream(request).thrown))
      && (upstream(request).Fetched? ==>
            var items := upstream(request).response.value;
            if items.None? || |items.value| == 0 then step.0.Done?
            else step.0 == Yield(ProcessIssuanceItems(DefaultBaseUrl, items.value)))
  {
  }

  /** A valid query issues exactly one request: the first `pageSize` records of its
      year range, at offset 0. */
  lemma PaginatedRequest(q: Query, upstream: Upstream)
    requires !InvalidPagination(QueryNumber(q.page, PageFallback), QueryNumber(q.pageSize, PageSizeFallback))
    ensures var pageSize := QueryNumber(q.pageSize, PageSizeFallback);
      PaginatedReply(q, upstream).1 ==
        [Request(QueryNumber(q.yearStart, YearStartFallback), QueryNumber(q.yearEnd, YearEndFallback), 0,
                 if pageSize.Finite? then pageSize.value else DefaultChunkSize)]
  {
  }

  /** The page number is validated and echoed but selects nothing: two valid queries
      that differ only in `page` issue the same request and list the same records. */
  lemma PaginatedIgnoresPage(q: Query, otherPage: string, upstream: Upstream)
    requires !InvalidPagination(QueryNumber(q.page, PageFallback), QueryNumber(q.pageSize, PageSizeFallback))
    requires !InvalidPagination(QueryNumber(Some(otherPage), PageFallback), QueryNumber(q.pageSize, PageSizeFallback))
    ensures var r1, r2 := PaginatedReply(q, upstream), PaginatedReply(q.(page := Some(otherPage)), upstream);
      && r1.1 == r2.1 && r1.0.status == r2.0.status
      && (r1.0.body.Listing? <==> r2.0.body.Listing?)
      && (r1.0.body.Listing? ==>
            && r1.0.body.issuances == r2.0.body.issuances
            && r1.0.body.pagination.value.hasMore == r2.0.body.pagination.value.hasMore)
      && (r1.0.body.ErrorBody? ==> r1.0.body == r2.0.body)
  {
  }

  /** A 200 answer lists the normalised records of the one response, counts them,
      echoes `page` and `pageSize`, and has more exactly when the page came back full. */
  lemma PaginatedListing(q: Query, upstream: Upstream)
    ensures var r := PaginatedReply(q, upstream);
      var page, pageSize := QueryNumber(q.page, PageFallback), QueryNumber(q.pageSize, PageSizeFallback);
      r.0.status == 200 ==>
        && |r.1| == 1 && upstream(r.1[0]).Fetched? && r.0.body.Listing?
        && var items := upstream(r.1[0]).response.value;
        && r.0.body.issuances == ProcessIssuanceItems(DefaultBaseUrl, if items.Some? then items.value else [])
        && r.0.body.count == |r.0.body.issuances|
        && r.0.body.pagination == Some(Pagination(page, pageSize, pageSize.Finite? && r.0.body.count == pageSize.value))
  {
  }

  /** When the generator is done on its first pull, the answer is an empty listing without more. */
  lemma PaginatedEmpty(q: Query, upstream: Upstream)
    ensures var r := PaginatedReply(q, upstream);
      var page, pageSize := QueryNumber(q.page, PageFallback), QueryNumber(q.pageSize, PageSizeFallback);
      r.0.status != 400 && upstream(r.1[0]).Fetched? &&
      (upstream(r.1[0]).response.value.None? || upstream(r.1[0]).response.value.value == []) ==>
        r.0 == HttpResponse(200, Listing(0, [], Some(Pagination(page, pageSize, false))))
  {
  }

  /** A failing request turns into a 500 carrying its message; it is the only way to a 500. */
  lemma PaginatedFailure(q: Query, upstream: Upstream)
    ensures var r := PaginatedReply(q, upstream);
      (r.0.status == 500 <==> |r.1| == 1 && upstream(r.1[0]).FetchFailed?)
      && (r.0.status == 500 ==> r.0 == ServerError(upstream(r.1[0]).thrown))
  {
  }

  // ---------------------------------------------------------------------------
  // GET /issuances

  /** The settings of `new BspIssuanceScraper()`. */
  const DefaultSettings := Config(DefaultBaseUrl, DefaultChunkSize, None)

  const NoOptions := ScraperOptions(None, None, None)

  lemma DefaultScraperSettings()
    ensures Configure(NoOptions) == Success(DefaultSettings)
  {
  }

  /** The answer for what `scrapeAllIssuances` settled to: the records and their count, or a 500. */
  function AggregateReply(outcome: Result<seq<ExtractedIssuance>, Thrown>): (r: HttpResponse)
    ensures outcome.Success? ==> r.status == 200 && r.body.Listing? && r.body.pagination.None?
    ensures outcome.Success? ==> r.body.issuances == outcome.value && r.body.count == |outcome.value|
    ensures outcome.Failure? ==> r == ServerError(outcome.error)
  {
    if outcome.Success? then HttpResponse(200, Listing(|outcome.value|, outcome.value, None))
    else ServerError(outcome.error)
  }

  /** The `/issuances` handler: a default scraper drained over the year range. Its
      upstream must run out of full pages past some offset `bound` for this to end. */
  method GetIssuances(q: Query, upstream: Upstream, ghost bound: int) returns (resp: HttpResponse)
    requires EndsFrom(upstream, QueryNumber(q.yearStart, YearStartFallback), QueryNumber(q.yearEnd, YearEndFallback),
                      DefaultChunkSize, bound)
    ensures resp == AggregateReply(AggregateOf(RunChunks(DefaultSettings, QueryNumber(q.yearStart, YearStartFallback),
                                                         QueryNumber(q.yearEnd, YearEndFallback), upstream, Start, bound)))
  {
    var yearStart := QueryNumber(q.yearStart, YearStartFallback);
    var yearEnd := QueryNumber(q.yearEnd, YearEndFallback);
    DefaultScraperSettings();
    var scraper := new BspIssuanceScraper(NoOptions);
    var issuances := scraper.ScrapeAllIssuances(Some(yearStart), Some(yearEnd), upstream, bound);
    if issuances.Success? {
      resp := HttpResponse(200, Listing(|issuances.value|, issuances.value, None));
    } else {
      resp := ServerError(issuances.error);
    }
  }

  /** The aggregate answer in terms of the requests the drain issues: pages of 100
      at offsets 0, 100, 200, ..., every page but the last one full, and a 500
      exactly when the last request failed. */
  lemma AggregateRequests(yearStart: Num, yearEnd: Num, upstream: Upstream, bound: int)
    requires EndsFrom(upstream, yearStart, yearEnd, DefaultChunkSize, bound)
    ensures var t := RunChunks(DefaultSettings, yearStart, yearEnd, upstream, Start, bound);
      var r := AggregateReply(AggregateOf(t));
      && |t.requests| > 0 && t.requests[0] == Request(yearStart, yearEnd, 0, DefaultChunkSize)
      && (forall k :: 0 <= k < |t.requests| ==> t.requests[k] == Request(yearStart, yearEnd, k * DefaultChunkSize, DefaultChunkSize))
      && (forall k :: 0 <= k < |t.requests| - 1 ==> FullPage(upstream(t.requests[k]), DefaultChunkSize))
      && (r.status == 500 <==> upstream(t.requests[|t.requests| - 1]).FetchFailed?)
      && (r.status == 200 ==> r.body.count == TotalLength(t.pages))
  {
    RunFirstRequest(DefaultSettings, yearStart, yearEnd, upstream, Start, bound);
    RunRequestOffsets(DefaultSettings, yearStart, yearEnd, upstream, Start, bound);
    RunContinuesAfterFullPages(DefaultSettings, yearStart, yearEnd, upstream, Start, bound);
    RunThrowsOnFailure(DefaultSettings, yearStart, yearEnd, upstream, Start, bound);
    var t := RunChunks(DefaultSettings, yearStart, yearEnd, upstream, Start, bound);
    FlattenLength(t.pages);
  }
}
