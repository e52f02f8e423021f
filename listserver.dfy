/** A reference upstream: a list service holding a fixed sequence of records for
    the queried year range, answering each request with the window `$skip`,
    `$top` selects. Against it the drain returns every record, normalised and
    in order, and the paginated handler returns the first page whatever page is
    asked for. */
module ListServer {
  import opened Types
  import opened Text
  import opened Scraper
  import opened Route

  function Min(a: int, b: int): int
  {
    if a < b then a else b
  }

  /** The records from offset `skip`, at most `top` of them. */
  function Window(records: seq<IssuanceItem>, skip: int, top: int): (w: seq<IssuanceItem>)
    ensures skip >= 0 && top >= 0 ==> w == records[Min(skip, |records|)..Min(skip + top, |records|)]
    ensures |w| <= Max0(top)
  {
    var lo := Min(Max0(skip), |records|);
    var hi := Min(lo + Max0(top), |records|);
    records[lo..hi]
  }

  /** The service: every request is answered with its window of `records`. */
  function Serve(records: seq<IssuanceItem>): Upstream
  {
    (request: Request) => Fetched(ApiResponse(Some(Window(records, request.skip, request.top)), None))
  }

  /** Past the last record every answer is empty, so the paging ends. */
  lemma ServeEnds(records: seq<IssuanceItem>, yearStart: Num, yearEnd: Num, chunkSize: int)
    requires chunkSize > 0
    ensures EndsFrom(Serve(records), yearStart, yearEnd, chunkSize, |records|)
  {
    forall s | |records| <= s
      ensures EndsPaging(Serve(records)(Request(yearStart, yearEnd, s, chunkSize)), chunkSize)
    {
      assert |Window(records, s, chunkSize)| == 0;
    }
  }

  /** One pull against the service from a cursor at offset `skip`: a page of the
      records from there when any are left, otherwise the end. */
  lemma ServeStep(cfg: Config, yearStart: Num, yearEnd: Num, records: seq<IssuanceItem>, c: Cursor)
    requires cfg.chunkSize > 0 && cfg.maxChunks.None?
    requires !c.finished && c.skip >= 0 && (c.hasMoreData || c.skip >= |records|)
    ensures var step := Step(cfg, yearStart, yearEnd, Serve(records), c);
      var lo, hi := Min(c.skip, |records|), Min(c.skip + cfg.chunkSize, |records|);
      && (step.0.Yield? <==> lo < |records|)
      && (step.0.Yield? ==>
            && step.0.page == ProcessIssuanceItems(cfg.baseUrl, records[lo..hi])
            && !step.1.finished && step.1.skip >= 0 && (step.1.hasMoreData || step.1.skip >= |records|)
            && Min(step.1.skip, |records|) == hi)
      && (!step.0.Yield? ==> step.0.Done? && lo == |records|)
  {
    var up := Serve(records);
    var lo, hi := Min(c.skip, |records|), Min(c.skip + cfg.chunkSize, |records|);
    if c.hasMoreData {
      var response := up(CurrentRequest(cfg, yearStart, yearEnd, c));
      assert response.response.value == Some(records[lo..hi]);
    }
  }

  /** A page of the records `lo..hi` in front of pages that hold the records from `hi` on. */
  lemma JoinPages(baseUrl: string, page: Page, rest: seq<Page>, records: seq<IssuanceItem>, lo: int, hi: int)
    requires 0 <= lo <= hi <= |records|
    requires page == ProcessIssuanceItems(baseUrl, records[lo..hi])
    requires Flatten(rest) == ProcessIssuanceItems(baseUrl, records[hi..])
    ensures Flatten([page] + rest) == ProcessIssuanceItems(baseUrl, records[lo..])
  {
    var front, back := records[lo..hi], records[hi..];
    assert ([page] + rest)[0] == page && ([page] + rest)[1..] == rest;
    assert Flatten([page] + rest) == page + Flatten(rest);
    assert front + back == records[lo..];
    ProcessAppend(baseUrl, front, back);
  }

  /** From any live cursor that has either more data or run past the records, the
      rest of an unbounded run yields exactly the records from the cursor's offset. */
  lemma {:induction false} RunServesRest(cfg: Config, yearStart: Num, yearEnd: Num, records: seq<IssuanceItem>, c: Cursor)
    requires cfg.chunkSize > 0 && cfg.maxChunks.None?
    requires !c.finished && c.skip >= 0 && (c.hasMoreData || c.skip >= |records|)
    ensures Drains(cfg, Serve(records), yearStart, yearEnd, |records|) &&
      var t := RunChunks(cfg, yearStart, yearEnd, Serve(records), c, |records|);
      t.thrown.None? && Flatten(t.pages) == ProcessIssuanceItems(cfg.baseUrl, records[Min(c.skip, |records|)..])
    decreases Remaining(cfg, c, |records|)
  {
    var up := Serve(records);
    ServeEnds(records, yearStart, yearEnd, cfg.chunkSize);
    RunUnfold(cfg, yearStart, yearEnd, up, c, |records|);
    ServeStep(cfg, yearStart, yearEnd, records, c);
    var step := Step(cfg, yearStart, yearEnd, up, c);
    var t := RunChunks(cfg, yearStart, yearEnd, up, c, |records|);
    var lo, hi := Min(c.skip, |records|), Min(c.skip + cfg.chunkSize, |records|);
    if step.0.Yield? {
      RunServesRest(cfg, yearStart, yearEnd, records, step.1);
      var rest := RunChunks(cfg, yearStart, yearEnd, up, step.1, |records|);
      JoinPages(cfg.baseUrl, step.0.page, rest.pages, records, lo, hi);
    } else {
      assert records[lo..] == [];
    }
  }

  /** `scrapeAllIssuances` without a page bound returns every record, normalised, in order. */
  lemma DrainServesAll(cfg: Config, yearStart: Num, yearEnd: Num, records: seq<IssuanceItem>)
    requires cfg.chunkSize > 0 && cfg.maxChunks.None?
    ensures Drains(cfg, Serve(records), yearStart, yearEnd, |records|) &&
      AggregateOf(RunChunks(cfg, yearStart, yearEnd, Serve(records), Start, |records|)) ==
        Success(ProcessIssuanceItems(cfg.baseUrl, records))
  {
    RunServesRest(cfg, yearStart, yearEnd, records, Start);
    assert records[Min(0, |records|)..] == records;
  }

  /** `GET /issuances` against the service answers 200 with every record and their number. */
  lemma IssuancesServesAll(q: Query, records: seq<IssuanceItem>)
    ensures var yearStart, yearEnd := QueryNumber(q.yearStart, YearStartFallback), QueryNumber(q.yearEnd, YearEndFallback);
      EndsFrom(Serve(records), yearStart, yearEnd, DefaultChunkSize, |records|) &&
      AggregateReply(AggregateOf(RunChunks(DefaultSettings, yearStart, yearEnd, Serve(records), Start, |records|))) ==
        HttpResponse(200, Listing(|records|, ProcessIssuanceItems(DefaultBaseUrl, records), None))
  {
    var yearStart, yearEnd := QueryNumber(q.yearStart, YearStartFallback), QueryNumber(q.yearEnd, YearEndFallback);
    DrainServesAll(DefaultSettings, yearStart, yearEnd, records);
  }

  /** `GET /issuances/paginated` against the service answers with the first `pageSize`
      records whatever `page` says, and reports more exactly when that page is full. */
  lemma PaginatedServesFirstPage(q: Query, records: seq<IssuanceItem>)
    requires !InvalidPagination(QueryNumber(q.page, PageFallback), QueryNumber(q.pageSize, PageSizeFallback))
    ensures var pageSize := QueryNumber(q.pageSize, PageSizeFallback);
      var size := if pageSize.Finite? then pageSize.value else DefaultChunkSize;
      var first := records[..Min(size, |records|)];
      var r := PaginatedReply(q, Serve(records)).0;
      && r.status == 200 && r.body.Listing?
      && r.body.issuances == ProcessIssuanceItems(DefaultBaseUrl, first)
      && r.body.count == |first|
      && r.body.pagination.value.hasMore == (pageSize.Finite? && |first| == size)
  {
    var pageSize := QueryNumber(q.pageSize, PageSizeFallback);
    var size := if pageSize.Finite? then pageSize.value else DefaultChunkSize;
    assert Window(records, 0, size) == records[..Min(size, |records|)];
  }
}
