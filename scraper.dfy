/** The chunked retrieval and normalisation pipeline of `BspIssuanceScraper`
    (src/scraper.ts): option defaults, PDF link extraction, record
    normalisation, query construction, and the paging generator, modelled as
    a cursor whose every step performs at most one upstream fetch. */
module Scraper {
  import opened Types
  import opened Text

  // ---------------------------------------------------------------------------
  // Options and their defaults

  const DefaultBaseUrl := "https://www.bsp.gov.ph"
  const DefaultChunkSize := 100
  /** The default year range of the two generator methods. */
  const DefaultYearStart := 2014
  const DefaultYearEnd := 2025
  const ChunkSizeError := "chunkSize must be a positive number"

  /** The options object; a field left out of it is `None`. */
  datatype ScraperOptions = ScraperOptions(baseUrl: Option<string>, chunkSize: Option<Num>, maxChunks: Option<Num>)

  /** The settings a scraper holds once constructed; `maxChunks == None` is `null`: no bound. */
  datatype Config = Config(baseUrl: string, chunkSize: int, maxChunks: Option<int>)

  /** JavaScript truthiness of an optional string (absent and `""` are falsy). */
  predicate TruthyString(o: Option<string>)
  {
    o.Some? && o.value != ""
  }

  /** JavaScript truthiness of an optional number (absent, `0` and `NaN` are falsy). */
  predicate TruthyNumber(o: Option<Num>)
  {
    o.Some? && o.value.Finite? && o.value.value != 0
  }

  /** What `new BspIssuanceScraper(options)` does: the `||` defaults, then the
      `chunkSize <= 0` check, which throws. */
  function Configure(options: ScraperOptions): (r: Result<Config, Thrown>)
    ensures r.Failure? <==> exists n :: options.chunkSize == Some(Finite(n)) && n < 0
    ensures r.Failure? ==> r.error == ErrorObject(ChunkSizeError)
    ensures r.Success? ==> r.value.chunkSize > 0
    ensures r.Success? && !TruthyNumber(options.chunkSize) ==> r.value.chunkSize == DefaultChunkSize
    ensures r.Success? && TruthyNumber(options.chunkSize) ==> Finite(r.value.chunkSize) == options.chunkSize.value
    ensures r.Success? && !TruthyNumber(options.maxChunks) ==> r.value.maxChunks.None?
    ensures r.Success? && TruthyNumber(options.maxChunks) ==>
      r.value.maxChunks.Some? && Finite(r.value.maxChunks.value) == options.maxChunks.value
    ensures r.Success? && (options.baseUrl.None? || options.baseUrl == Some("")) ==> r.value.baseUrl == DefaultBaseUrl
    ensures r.Success? && options.baseUrl.Some? && options.baseUrl.value != "" ==> r.value.baseUrl == options.baseUrl.value
  {
    var baseUrl := if TruthyString(options.baseUrl) then options.baseUrl.value else DefaultBaseUrl;
    var chunkSize := if TruthyNumber(options.chunkSize) then options.chunkSize.value.value else DefaultChunkSize;
    var maxChunks := if TruthyNumber(options.maxChunks) then Some(options.maxChunks.value.value) else None;
    if chunkSize <= 0 then Failure(ErrorObject(ChunkSizeError)) else Success(Config(baseUrl, chunkSize, maxChunks))
  }

  /** A year argument: a JavaScript default parameter applies only when the argument is absent. */
  function YearArgument(arg: Option<Num>, default: int): Num
  {
    if arg.Some? then arg.value else Finite(default)
  }

  // ---------------------------------------------------------------------------
  // Link extraction

  /** The test an anchor's `href` must pass: present, non-empty, containing `.pdf`. */
  predicate IsPdfHref(href: Option<string>)
  {
    href.Some? && href.value != "" && Includes(href.value, ".pdf")
  }

  /** A root-relative target gets the base URL in front; anything else is kept verbatim. */
  function ResolveHref(baseUrl: string, href: string): string
  {
    if StartsWith(href, "/") then baseUrl + href else href
  }

  /** The link `extractDownloadLink` returns for anchors with these `href`s, in document order. */
  function FirstPdfLink(baseUrl: string, hrefs: seq<Option<string>>): Option<string>
    decreases |hrefs|
  {
    if hrefs == [] then None
    else if IsPdfHref(hrefs[0]) then Some(ResolveHref(baseUrl, hrefs[0].value))
    else FirstPdfLink(baseUrl, hrefs[1..])
  }

  /** Anchor `i` is the first whose `href` qualifies. */
  predicate FirstPdfIndex(hrefs: seq<Option<string>>, i: int)
  {
    0 <= i < |hrefs| && IsPdfHref(hrefs[i]) && forall j :: 0 <= j < i ==> !IsPdfHref(hrefs[j])
  }

  /** The first qualifying anchor decides the link, resolved against the base URL. */
  lemma {:induction false} FirstPdfLinkAt(baseUrl: string, hrefs: seq<Option<string>>, i: int)
    requires FirstPdfIndex(hrefs, i)
    ensures FirstPdfLink(baseUrl, hrefs) == Some(ResolveHref(baseUrl, hrefs[i].value))
    decreases i
  {
    if i > 0 {
      assert !IsPdfHref(hrefs[0]);
      assert forall j :: 0 <= j < i - 1 ==> hrefs[1..][j] == hrefs[j + 1];
      FirstPdfLinkAt(baseUrl, hrefs[1..], i - 1);
    }
  }

  /** No link exactly when no anchor qualifies. */
  lemma {:induction false} FirstPdfLinkNone(baseUrl: string, hrefs: seq<Option<string>>)
    ensures FirstPdfLink(baseUrl, hrefs).None? <==> forall j :: 0 <= j < |hrefs| ==> !IsPdfHref(hrefs[j])
    decreases |hrefs|
  {
    if hrefs != [] {
      FirstPdfLinkNone(baseUrl, hrefs[1..]);
      assert forall j :: 1 <= j < |hrefs| ==> hrefs[j] == hrefs[1..][j - 1];
    }
  }

  /** A link found in a prefix of the anchors is not affected by any anchor after it,
      and a prefix without a qualifying anchor is skipped over. */
  lemma {:induction false} FirstPdfLinkAppend(baseUrl: string, front: seq<Option<string>>, back: seq<Option<string>>)
    ensures FirstPdfLink(baseUrl, front).Some? ==> FirstPdfLink(baseUrl, front + back) == FirstPdfLink(baseUrl, front)
    ensures FirstPdfLink(baseUrl, front).None? ==> FirstPdfLink(baseUrl, front + back) == FirstPdfLink(baseUrl, back)
    decreases |front|
  {
    if front == [] {
      assert front + back == back;
    } else {
      assert (front + back)[0] == front[0] && (front + back)[1..] == front[1..] + back;
      FirstPdfLinkAppend(baseUrl, front[1..], back);
    }
  }

  // ---------------------------------------------------------------------------
  // Record normalisation

  function Normalize(baseUrl: string, item: IssuanceItem): ExtractedIssuance
  {
    ExtractedIssuance(item.Id, item.Title, item.CircularNumber, item.IssuanceType, item.DateIssued,
                      FirstPdfLink(baseUrl, item.Content))
  }

  /** `processIssuanceItems`: one normalised record per raw record, in the same order. */
  function ProcessIssuanceItems(baseUrl: string, items: seq<IssuanceItem>): (r: Page)
    ensures |r| == |items|
    ensures forall i :: 0 <= i < |items| ==>
      r[i].id == items[i].Id && r[i].title == items[i].Title &&
      r[i].circularNumber == items[i].CircularNumber && r[i].issuanceType == items[i].IssuanceType &&
      r[i].dateIssued == items[i].DateIssued && r[i].downloadLink == FirstPdfLink(baseUrl, items[i].Content)
    decreases |items|
  {
    if items == [] then [] else [Normalize(baseUrl, items[0])] + ProcessIssuanceItems(baseUrl, items[1..])
  }

  /** Normalising two runs of records one after the other is normalising them together. */
  lemma {:induction false} ProcessAppend(baseUrl: string, a: seq<IssuanceItem>, b: seq<IssuanceItem>)
    ensures ProcessIssuanceItems(baseUrl, a + b) == ProcessIssuanceItems(baseUrl, a) + ProcessIssuanceItems(baseUrl, b)
    decreases |a|
  {
    if a == [] {
      assert a + b == b;
    } else {
      assert (a + b)[0] == a[0] && (a + b)[1..] == a[1..] + b;
      ProcessAppend(baseUrl, a[1..], b);
    }
  }

  // ---------------------------------------------------------------------------
  // Query construction

  const ApiPath := "/_api/web/lists/getByTitle('Issuances')/items?"
  const StartTime := "-12-31T16:00:00.000Z"
  const EndTime := "-12-31T15:59:59.000Z"
  /** The two time suffixes as `encodeURIComponent` escapes them. */
  const StartTimeEncoded := "-12-31T16%3A00%3A00.000Z"
  const EndTimeEncoded := "-12-31T15%3A59%3A59.000Z"

  /** The lower date bound: December 31 of `yearStart`, 16:00 UTC. */
  function StartDate(yearStart: Num): (s: string)
    ensures IsAscii(s) && EncodeURIComponent(s) == NumToString(yearStart) + StartTimeEncoded
  {
    EncodeTimes();
    EncodeDate(yearStart, StartTime, StartTimeEncoded);
    NumToString(yearStart) + StartTime
  }

  /** The upper date bound: December 31 of `yearEnd`, 15:59:59 UTC. */
  function EndDate(yearEnd: Num): (s: string)
    ensures IsAscii(s) && EncodeURIComponent(s) == NumToString(yearEnd) + EndTimeEncoded
  {
    EncodeTimes();
    EncodeDate(yearEnd, EndTime, EndTimeEncoded);
    NumToString(yearEnd) + EndTime
  }

  /** `generateApiUrl`: the upstream list query for one page. */
  function GenerateApiUrl(baseUrl: string, chunkSize: int, yearStart: Num, yearEnd: Num, skip: int): string
  {
    baseUrl + ApiPath +
    "$select=*" +
    "&$filter=DateIssued%20ge%20%27" + EncodeURIComponent(StartDate(yearStart)) + "%27%20and%20" +
    "DateIssued%20le%20%27" + EncodeURIComponent(EndDate(yearEnd)) + "%27%20and%20" +
    "OData__ModerationStatus%20eq%200%20" +
    "&$top=" + IntToString(chunkSize) +
    "&$skip=" + IntToString(skip) +
    "&$orderby=DateIssued%20desc"
  }

  /** A colon between two ASCII texts is the only character escaped there. */
  lemma EncodeColon(front: string, back: string)
    requires IsAscii(front) && IsAscii(back)
    ensures IsAscii(front + ":" + back)
    ensures EncodeURIComponent(front + ":" + back) == EncodeURIComponent(front) + "%3A" + EncodeURIComponent(back)
  {
    assert EncodeURIComponent(":") == "%3A" by {
      assert ":"[1..] == [];
    }
    EncodeAppend(front, ":");
    EncodeAppend(front + ":", back);
  }

  /** Each time suffix escapes to its `%3A` form. */
  lemma EncodeTimes()
    ensures IsAscii(StartTime) && EncodeURIComponent(StartTime) == StartTimeEncoded
    ensures IsAscii(EndTime) && EncodeURIComponent(EndTime) == EndTimeEncoded
  {
    EncodeStartTime();
    EncodeEndTime();
  }

  lemma EncodeStartTime()
    ensures IsAscii(StartTime) && EncodeURIComponent(StartTime) == StartTimeEncoded
  {
    assert StartTime == "-12-31T16" + ":" + "00" + ":" + "00.000Z";
    assert StartTimeEncoded == "-12-31T16" + "%3A" + "00" + "%3A" + "00.000Z";
    EncodeTime("-12-31T16", "00", "00.000Z");
  }

  lemma EncodeEndTime()
    ensures IsAscii(EndTime) && EncodeURIComponent(EndTime) == EndTimeEncoded
  {
    assert EndTime == "-12-31T15" + ":" + "59" + ":" + "59.000Z";
    assert EndTimeEncoded == "-12-31T15" + "%3A" + "59" + "%3A" + "59.000Z";
    EncodeTime("-12-31T15", "59", "59.000Z");
  }

  lemma EncodeTime(hour: string, minute: string, second: string)
    requires forall i :: 0 <= i < |hour| ==> Unreserved(hour[i])
    requires forall i :: 0 <= i < |minute| ==> Unreserved(minute[i])
    requires forall i :: 0 <= i < |second| ==> Unreserved(second[i])
    ensures IsAscii(hour + ":" + minute + ":" + second)
    ensures EncodeURIComponent(hour + ":" + minute + ":" + second) == hour + "%3A" + minute + "%3A" + second
  {
    EncodeUnreserved(hour);
    EncodeUnreserved(minute);
    EncodeUnreserved(second);
    EncodeColon(hour, minute);
    EncodeColon(hour + ":" + minute, second);
  }

  /** A year in front of an ASCII suffix is left as it is by the encoding. */
  lemma EncodeDate(year: Num, suffix: string, encoded: string)
    requires IsAscii(suffix) && EncodeURIComponent(suffix) == encoded
    ensures IsAscii(NumToString(year) + suffix)
    ensures EncodeURIComponent(NumToString(year) + suffix) == NumToString(year) + encoded
  {
    NumToStringUnreserved(year);
    EncodeUnreserved(NumToString(year));
    EncodeAppend(NumToString(year), suffix);
  }

  /** The query, written out with the date bounds already escaped. */
  lemma ApiUrlExact(baseUrl: string, chunkSize: int, yearStart: Num, yearEnd: Num, skip: int)
    ensures GenerateApiUrl(baseUrl, chunkSize, yearStart, yearEnd, skip) ==
      baseUrl + ApiPath +
      "$select=*" +
      "&$filter=DateIssued%20ge%20%27" + (NumToString(yearStart) + StartTimeEncoded) + "%27%20and%20" +
      "DateIssued%20le%20%27" + (NumToString(yearEnd) + EndTimeEncoded) + "%27%20and%20" +
      "OData__ModerationStatus%20eq%200%20" +
      "&$top=" + IntToString(chunkSize) +
      "&$skip=" + IntToString(skip) +
      "&$orderby=DateIssued%20desc"
  {
    var _ := StartDate(yearStart);
    var _ := EndDate(yearEnd);
  }

  /** The query carries the page size, the offset, both date bounds, the
      moderation filter and the descending order. */
  lemma ApiUrlEmbeds(baseUrl: string, chunkSize: int, yearStart: Num, yearEnd: Num, skip: int)
    ensures var url := GenerateApiUrl(baseUrl, chunkSize, yearStart, yearEnd, skip);
      && Includes(url, NumToString(yearStart) + StartTimeEncoded)
      && Includes(url, NumToString(yearEnd) + EndTimeEncoded)
      && Includes(url, "OData__ModerationStatus%20eq%200%20")
      && Includes(url, "&$top=" + IntToString(chunkSize))
      && Includes(url, "&$skip=" + IntToString(skip))
      && Includes(url, "&$orderby=DateIssued%20desc")
  {
    ApiUrlExact(baseUrl, chunkSize, yearStart, yearEnd, skip);
    var lower := NumToString(yearStart) + StartTimeEncoded;
    var upper := NumToString(yearEnd) + EndTimeEncoded;
    var moderation := "OData__ModerationStatus%20eq%200%20";
    var top := IntToString(chunkSize);
    var offset := IntToString(skip);
    var order := "&$orderby=DateIssued%20desc";
    var u0 := baseUrl + ApiPath + "$select=*" + "&$filter=DateIssued%20ge%20%27";
    var u1 := u0 + lower;
    var u2 := u1 + "%27%20and%20";
    var u3 := u2 + "DateIssued%20le%20%27";
    var u4 := u3 + upper;
    var u5 := u4 + "%27%20and%20";
    var u6 := u5 + moderation;
    var u7 := u6 + "&$top=";
    var u8 := u7 + top;
    var u9 := u8 + "&$skip=";
    var u10 := u9 + offset;
    var url := u10 + order;
    assert url == GenerateApiUrl(baseUrl, chunkSize, yearStart, yearEnd, skip);
    // the start bound
    IncludesSuffix(u0, lower);
    IncludesExtend(u1, lower, "%27%20and%20");
    IncludesExtend(u2, lower, "DateIssued%20le%20%27");
    IncludesExtend(u3, lower, upper);
    IncludesExtend(u4, lower, "%27%20and%20");
    // the end bound
    IncludesSuffix(u3, upper);
    IncludesExtend(u4, upper, "%27%20and%20");
    // the moderation filter
    IncludesExtend(u5, lower, moderation);
    IncludesExtend(u5, upper, moderation);
    IncludesSuffix(u5, moderation);
    IncludesExtend(u6, lower, "&$top=");
    IncludesExtend(u6, upper, "&$top=");
    IncludesExtend(u6, moderation, "&$top=");
    IncludesExtend(u7, lower, top);
    IncludesExtend(u7, upper, top);
    IncludesExtend(u7, moderation, top);
    // the page size
    IncludesPair(u6, "&$top=", top);
    IncludesExtend(u8, lower, "&$skip=");
    IncludesExtend(u8, upper, "&$skip=");
    IncludesExtend(u8, moderation, "&$skip=");
    IncludesExtend(u8, "&$top=" + top, "&$skip=");
    IncludesExtend(u9, lower, offset);
    IncludesExtend(u9, upper, offset);
    IncludesExtend(u9, moderation, offset);
    IncludesExtend(u9, "&$top=" + top, offset);
    // the offset
    IncludesPair(u8, "&$skip=", offset);
    IncludesExtend(u10, lower, order);
    IncludesExtend(u10, upper, order);
    IncludesExtend(u10, moderation, order);
    IncludesExtend(u10, "&$top=" + top, order);
    IncludesExtend(u10, "&$skip=" + offset, order);
    // the order
    IncludesSuffix(u10, order);
  }

  /** `a + p + q` ends in `p + q`. */
  lemma IncludesPair(a: string, p: string, q: string)
    ensures Includes(a + p + q, p + q)
  {
    assert a + p + q == a + (p + q);
    IncludesSuffix(a, p + q);
  }

  /** Two queries that differ only in their offset are different queries. */
  lemma ApiUrlDeterminesSkip(baseUrl: string, chunkSize: int, yearStart: Num, yearEnd: Num, skip1: int, skip2: int)
    requires GenerateApiUrl(baseUrl, chunkSize, yearStart, yearEnd, skip1) ==
             GenerateApiUrl(baseUrl, chunkSize, yearStart, yearEnd, skip2)
    ensures skip1 == skip2
  {
    var front := baseUrl + ApiPath +
      "$select=*" +
      "&$filter=DateIssued%20ge%20%27" + EncodeURIComponent(StartDate(yearStart)) + "%27%20and%20" +
      "DateIssued%20le%20%27" + EncodeURIComponent(EndDate(yearEnd)) + "%27%20and%20" +
      "OData__ModerationStatus%20eq%200%20" +
      "&$top=" + IntToString(chunkSize) +
      "&$skip=";
    var back := "&$orderby=DateIssued%20desc";
    var s1, s2 := IntToString(skip1), IntToString(skip2);
    var u1, u2 := front + s1 + back, front + s2 + back;
    assert u1 == GenerateApiUrl(baseUrl, chunkSize, yearStart, yearEnd, skip1);
    assert u2 == GenerateApiUrl(baseUrl, chunkSize, yearStart, yearEnd, skip2);
    assert |s1| == |s2|;
    assert u1[|front|..|front| + |s1|] == s1;
    assert u2[|front|..|front| + |s2|] == s2;
    IntToStringInjective(skip1, skip2);
  }

  // ---------------------------------------------------------------------------
  // The paging generator as a state machine

  /** The generator's locals between two pulls; `finished` once it has returned or thrown. */
  datatype Cursor = Cursor(skip: int, chunksProcessed: int, hasMoreData: bool, finished: bool)

  /** The state of a generator that has not been pulled yet. */
  const Start := Cursor(0, 0, true, false)

  /** What one pull of the generator produces: a page, the end of the sequence, or a throw. */
  datatype StepResult = Yield(page: Page) | Done | Threw(thrown: Thrown)

  /** The loop guard together with the `maxChunks` check at the top of the loop body. */
  predicate WillFetch(cfg: Config, c: Cursor)
  {
    !c.finished && c.hasMoreData && !(cfg.maxChunks.Some? && c.chunksProcessed >= cfg.maxChunks.value)
  }

  /** The upstream request a pull from `c` issues (when it issues one). */
  function CurrentRequest(cfg: Config, yearStart: Num, yearEnd: Num, c: Cursor): Request
  {
    Request(yearStart, yearEnd, c.skip, cfg.chunkSize)
  }

  /** One pull of `scrapeIssuancesInChunks`: the value produced and the state left behind.
      The bookkeeping that follows a `yield` is done before the page is handed out. */
  function Step(cfg: Config, yearStart: Num, yearEnd: Num, upstream: Upstream, c: Cursor): (r: (StepResult, Cursor))
    ensures !WillFetch(cfg, c) ==> r.0 == Done
    ensures r.0.Yield? ==> |r.0.page| > 0 && !r.1.finished && WillFetch(cfg, c)
    ensures r.0.Yield? ==> r.1.skip == c.skip + cfg.chunkSize && r.1.chunksProcessed == c.chunksProcessed + 1
    ensures r.0.Yield? ==> (r.1.hasMoreData <==> FullPage(upstream(CurrentRequest(cfg, yearStart, yearEnd, c)), cfg.chunkSize))
    ensures !r.0.Yield? ==> r.1.finished
    ensures WillFetch(cfg, c) ==> var response := upstream(CurrentRequest(cfg, yearStart, yearEnd, c));
      && (response.FetchFailed? ==> r.0 == Threw(response.thrown))
      && (response.Fetched? && (response.response.value.None? || |response.response.value.value| == 0) ==> r.0 == Done)
      && (response.Fetched? && response.response.value.Some? && |response.response.value.value| > 0 ==>
            r.0 == Yield(ProcessIssuanceItems(cfg.baseUrl, response.response.value.value)))
  {
    if !WillFetch(cfg, c) then (Done, c.(finished := true))
    else match upstream(CurrentRequest(cfg, yearStart, yearEnd, c))
      case FetchFailed(thrown) => (Threw(thrown), c.(finished := true))
      case Fetched(data) =>
        if data.value.None? || |data.value.value| == 0 then (Done, c.(hasMoreData := false, finished := true))
        else
          var items := data.value.value;
          (Yield(ProcessIssuanceItems(cfg.baseUrl, items)),
           Cursor(c.skip + cfg.chunkSize, c.chunksProcessed + 1, !(|items| < cfg.chunkSize), false))
  }

  /** The requests one pull issues: none, or the one at the current offset. */
  function StepRequests(cfg: Config, yearStart: Num, yearEnd: Num, c: Cursor): seq<Request>
  {
    if WillFetch(cfg, c) then [CurrentRequest(cfg, yearStart, yearEnd, c)] else []
  }

  /** The cursor invariant: the offset is the number of pages consumed times the page size. */
  predicate CursorInv(cfg: Config, c: Cursor)
  {
    c.chunksProcessed >= 0 && c.skip == c.chunksProcessed * cfg.chunkSize
  }

  lemma StepKeepsInv(cfg: Config, yearStart: Num, yearEnd: Num, upstream: Upstream, c: Cursor)
    requires CursorInv(cfg, c)
    ensures CursorInv(cfg, Step(cfg, yearStart, yearEnd, upstream, c).1)
  {
    var next := Step(cfg, yearStart, yearEnd, upstream, c).1;
    if next.chunksProcessed != c.chunksProcessed {
      assert next.skip == c.skip + cfg.chunkSize && next.chunksProcessed == c.chunksProcessed + 1;
      assert (c.chunksProcessed + 1) * cfg.chunkSize == c.chunksProcessed * cfg.chunkSize + cfg.chunkSize;
    }
  }

  /** A response after which the generator stops: a throw, a missing or empty
      `value`, or fewer items than the page size. */
  predicate EndsPaging(response: FetchResult, chunkSize: int)
  {
    response.FetchFailed? || response.response.value.None? || |response.response.value.value| < chunkSize
  }

  /** A response after which the generator asks for the next page. */
  predicate FullPage(response: FetchResult, chunkSize: int)
  {
    response.Fetched? && response.response.value.Some? && |response.response.value.value| >= chunkSize
  }

  /** The upstream data is finite: from offset `bound` on, every response ends the paging. */
  ghost predicate EndsFrom(upstream: Upstream, yearStart: Num, yearEnd: Num, chunkSize: int, bound: int)
  {
    forall s :: bound <= s ==> EndsPaging(upstream(Request(yearStart, yearEnd, s, chunkSize)), chunkSize)
  }

  /** Draining the generator terminates: it has a page bound, or the upstream runs out. */
  ghost predicate Drains(cfg: Config, upstream: Upstream, yearStart: Num, yearEnd: Num, bound: int)
  {
    cfg.chunkSize > 0 && (cfg.maxChunks.Some? || EndsFrom(upstream, yearStart, yearEnd, cfg.chunkSize, bound))
  }

  function Max0(n: int): nat
  {
    if n < 0 then 0 else n
  }

  /** How many pulls at most the generator still has in it. */
  function Remaining(cfg: Config, c: Cursor, bound: int): nat
  {
    if c.finished then 0
    else if !c.hasMoreData then 1
    else 2 + (if cfg.maxChunks.Some? then Max0(cfg.maxChunks.value - c.chunksProcessed) else Max0(bound - c.skip))
  }

  lemma StepDecreases(cfg: Config, yearStart: Num, yearEnd: Num, upstream: Upstream, c: Cursor, bound: int)
    requires Drains(cfg, upstream, yearStart, yearEnd, bound)
    requires !c.finished
    ensures Remaining(cfg, Step(cfg, yearStart, yearEnd, upstream, c).1, bound) < Remaining(cfg, c, bound)
  {
    if WillFetch(cfg, c) && cfg.maxChunks.None? && bound <= c.skip {
      var response := upstream(CurrentRequest(cfg, yearStart, yearEnd, c));
      assert EndsPaging(response, cfg.chunkSize);
    }
  }

  /** Everything the generator does when pulled from `c` until it ends: the pages it
      yields, the requests it issues, and what it throws, if anything. */
  datatype Trace = Trace(pages: seq<Page>, requests: seq<Request>, thrown: Option<Thrown>)

  ghost function RunChunks(cfg: Config, yearStart: Num, yearEnd: Num, upstream: Upstream, c: Cursor, bound: int): Trace
    requires Drains(cfg, upstream, yearStart, yearEnd, bound)
    decreases Remaining(cfg, c, bound)
  {
    var step := Step(cfg, yearStart, yearEnd, upstream, c);
    var fetched := StepRequests(cfg, yearStart, yearEnd, c);
    match step.0
    case Done => Trace([], fetched, None)
    case Threw(thrown) => Trace([], fetched, Some(thrown))
    case Yield(page) =>
      StepDecreases(cfg, yearStart, yearEnd, upstream, c, bound);
      var rest := RunChunks(cfg, yearStart, yearEnd, upstream, step.1, bound);
      Trace([page] + rest.pages, fetched + rest.requests, rest.thrown)
  }

  /** One pull, then the rest of the run. */
  lemma RunUnfold(cfg: Config, yearStart: Num, yearEnd: Num, upstream: Upstream, c: Cursor, bound: int)
    requires Drains(cfg, upstream, yearStart, yearEnd, bound)
    ensures var step := Step(cfg, yearStart, yearEnd, upstream, c);
      var t := RunChunks(cfg, yearStart, yearEnd, upstream, c, bound);
      && (step.0.Done? ==> t == Trace([], StepRequests(cfg, yearStart, yearEnd, c), None))
      && (step.0.Threw? ==> t == Trace([], StepRequests(cfg, yearStart, yearEnd, c), Some(step.0.thrown)))
      && (step.0.Yield? ==>
            && Remaining(cfg, step.1, bound) < Remaining(cfg, c, bound)
            && var rest := RunChunks(cfg, yearStart, yearEnd, upstream, step.1, bound);
            t == Trace([step.0.page] + rest.pages, [CurrentRequest(cfg, yearStart, yearEnd, c)] + rest.requests, rest.thrown))
  {
    var step := Step(cfg, yearStart, yearEnd, upstream, c);
    if step.0.Yield? {
      StepDecreases(cfg, yearStart, yearEnd, upstream, c, bound);
    }
  }

  /** A run issues a request exactly when its first pull does. */
  lemma RunFirstRequest(cfg: Config, yearStart: Num, yearEnd: Num, upstream: Upstream, c: Cursor, bound: int)
    requires Drains(cfg, upstream, yearStart, yearEnd, bound)
    ensures var t := RunChunks(cfg, yearStart, yearEnd, upstream, c, bound);
      |t.requests| > 0 <==> WillFetch(cfg, c)
    ensures var t := RunChunks(cfg, yearStart, yearEnd, upstream, c, bound);
      |t.requests| > 0 ==> t.requests[0] == CurrentRequest(cfg, yearStart, yearEnd, c)
  {
    RunUnfold(cfg, yearStart, yearEnd, upstream, c, bound);
  }

  /** The `k`-th request asks for the page at offset `skip + k * chunkSize`, with the
      configured page size and the same year range. */
  lemma {:induction false} RunRequestOffsets(cfg: Config, yearStart: Num, yearEnd: Num, upstream: Upstream, c: Cursor, bound: int)
    requires Drains(cfg, upstream, yearStart, yearEnd, bound)
    ensures var t := RunChunks(cfg, yearStart, yearEnd, upstream, c, bound);
      forall k :: 0 <= k < |t.requests| ==> t.requests[k] == Request(yearStart, yearEnd, c.skip + k * cfg.chunkSize, cfg.chunkSize)
    decreases Remaining(cfg, c, bound)
  {
    RunUnfold(cfg, yearStart, yearEnd, upstream, c, bound);
    var step := Step(cfg, yearStart, yearEnd, upstream, c);
    if step.0.Yield? {
      RunRequestOffsets(cfg, yearStart, yearEnd, upstream, step.1, bound);
      var t := RunChunks(cfg, yearStart, yearEnd, upstream, c, bound);
      var rest := RunChunks(cfg, yearStart, yearEnd, upstream, step.1, bound);
      forall k | 1 <= k < |t.requests|
        ensures t.requests[k] == Request(yearStart, yearEnd, c.skip + k * cfg.chunkSize, cfg.chunkSize)
      {
        assert t.requests[k] == rest.requests[k - 1];
        assert (k - 1) * cfg.chunkSize + cfg.chunkSize == k * cfg.chunkSize by {
          assert (k - 1) * cfg.chunkSize == k * cfg.chunkSize - 1 * cfg.chunkSize;
        }
      }
    }
  }

  /** Every yielded page is the normalisation of the non-empty item list returned by the
      request of the same index; at most one further request (the one that ended the
      sequence without a page) follows the last page. */
  lemma {:induction false} RunPagesMatchFetches(cfg: Config, yearStart: Num, yearEnd: Num, upstream: Upstream, c: Cursor, bound: int)
    requires Drains(cfg, upstream, yearStart, yearEnd, bound)
    ensures var t := RunChunks(cfg, yearStart, yearEnd, upstream, c, bound);
      && |t.pages| <= |t.requests| <= |t.pages| + 1
      && forall k :: 0 <= k < |t.pages| ==>
           var response := upstream(t.requests[k]);
           && response.Fetched? && response.response.value.Some?
           && |response.response.value.value| > 0
           && t.pages[k] == ProcessIssuanceItems(cfg.baseUrl, response.response.value.value)
    decreases Remaining(cfg, c, bound)
  {
    var step := Step(cfg, yearStart, yearEnd, upstream, c);
    if step.0.Yield? {
      StepDecreases(cfg, yearStart, yearEnd, upstream, c, bound);
      RunPagesMatchFetches(cfg, yearStart, yearEnd, upstream, step.1, bound);
      var t := RunChunks(cfg, yearStart, yearEnd, upstream, c, bound);
      var rest := RunChunks(cfg, yearStart, yearEnd, upstream, step.1, bound);
      assert t.requests == [CurrentRequest(cfg, yearStart, yearEnd, c)] + rest.requests;
      assert t.pages == [step.0.page] + rest.pages;
      forall k | 1 <= k < |t.pages|
        ensures t.requests[k] == rest.requests[k - 1] && t.pages[k] == rest.pages[k - 1]
      {
      }
    }
  }

  /** A request is followed by another only when it returned a full page. */
  lemma {:induction false} RunContinuesAfterFullPages(cfg: Config, yearStart: Num, yearEnd: Num, upstream: Upstream, c: Cursor, bound: int)
    requires Drains(cfg, upstream, yearStart, yearEnd, bound)
    ensures var t := RunChunks(cfg, yearStart, yearEnd, upstream, c, bound);
      forall k :: 0 <= k < |t.requests| - 1 ==> FullPage(upstream(t.requests[k]), cfg.chunkSize)
    decreases Remaining(cfg, c, bound)
  {
    RunUnfold(cfg, yearStart, yearEnd, upstream, c, bound);
    var step := Step(cfg, yearStart, yearEnd, upstream, c);
    if step.0.Yield? {
      RunContinuesAfterFullPages(cfg, yearStart, yearEnd, upstream, step.1, bound);
      RunFirstRequest(cfg, yearStart, yearEnd, upstream, step.1, bound);
      var t := RunChunks(cfg, yearStart, yearEnd, upstream, c, bound);
      var rest := RunChunks(cfg, yearStart, yearEnd, upstream, step.1, bound);
      forall k | 0 <= k < |t.requests| - 1
        ensures FullPage(upstream(t.requests[k]), cfg.chunkSize)
      {
        if k > 0 {
          assert t.requests[k] == rest.requests[k - 1];
        }
      }
    }
  }

  /** With a page bound `m`, no more than `m - chunksProcessed` requests are issued. */
  lemma {:induction false} RunRespectsMaxChunks(cfg: Config, yearStart: Num, yearEnd: Num, upstream: Upstream, c: Cursor, bound: int)
    requires Drains(cfg, upstream, yearStart, yearEnd, bound)
    requires cfg.maxChunks.Some?
    ensures |RunChunks(cfg, yearStart, yearEnd, upstream, c, bound).requests| <= Max0(cfg.maxChunks.value - c.chunksProcessed)
    decreases Remaining(cfg, c, bound)
  {
    var step := Step(cfg, yearStart, yearEnd, upstream, c);
    if step.0.Yield? {
      StepDecreases(cfg, yearStart, yearEnd, upstream, c, bound);
      RunRespectsMaxChunks(cfg, yearStart, yearEnd, upstream, step.1, bound);
    }
  }

  /** The sequence throws exactly when its last request failed, and then with that
      request's error; a failing request yields no page. */
  lemma {:induction false} RunThrowsOnFailure(cfg: Config, yearStart: Num, yearEnd: Num, upstream: Upstream, c: Cursor, bound: int)
    requires Drains(cfg, upstream, yearStart, yearEnd, bound)
    ensures var t := RunChunks(cfg, yearStart, yearEnd, upstream, c, bound);
      && (t.thrown.Some? <==> |t.requests| > 0 && upstream(t.requests[|t.requests| - 1]).FetchFailed?)
      && (t.thrown.Some? ==> t.thrown.value == upstream(t.requests[|t.requests| - 1]).thrown &&
                             |t.requests| == |t.pages| + 1)
    decreases Remaining(cfg, c, bound)
  {
    var step := Step(cfg, yearStart, yearEnd, upstream, c);
    if step.0.Yield? {
      StepDecreases(cfg, yearStart, yearEnd, upstream, c, bound);
      RunThrowsOnFailure(cfg, yearStart, yearEnd, upstream, step.1, bound);
      var t := RunChunks(cfg, yearStart, yearEnd, upstream, c, bound);
      var rest := RunChunks(cfg, yearStart, yearEnd, upstream, step.1, bound);
      assert t.requests == [CurrentRequest(cfg, yearStart, yearEnd, c)] + rest.requests;
      if |rest.requests| == 0 {
        assert upstream(t.requests[0]).Fetched?;
      } else {
        assert t.requests[|t.requests| - 1] == rest.requests[|rest.requests| - 1];
      }
    }
  }

  /** Why a run stops. Its last request, when it yields no page, failed or came back
      with a missing or empty list. When the last request did yield a page, that page
      was short or the chunk bound was reached with it. */
  lemma {:induction false} RunStopsWhen(cfg: Config, yearStart: Num, yearEnd: Num, upstream: Upstream, c: Cursor, bound: int)
    requires Drains(cfg, upstream, yearStart, yearEnd, bound)
    ensures var t := RunChunks(cfg, yearStart, yearEnd, upstream, c, bound);
      |t.requests| == |t.pages| + 1 ==>
        var last := upstream(t.requests[|t.requests| - 1]);
        last.FetchFailed? || last.response.value.None? || |last.response.value.value| == 0
    ensures var t := RunChunks(cfg, yearStart, yearEnd, upstream, c, bound);
      0 < |t.pages| == |t.requests| ==>
        || !FullPage(upstream(t.requests[|t.requests| - 1]), cfg.chunkSize)
        || (cfg.maxChunks.Some? && c.chunksProcessed + |t.pages| >= cfg.maxChunks.value)
    decreases Remaining(cfg, c, bound)
  {
    var step := Step(cfg, yearStart, yearEnd, upstream, c);
    var t := RunChunks(cfg, yearStart, yearEnd, upstream, c, bound);
    RunUnfold(cfg, yearStart, yearEnd, upstream, c, bound);
    if step.0.Yield? {
      RunStopsWhen(cfg, yearStart, yearEnd, upstream, step.1, bound);
      RunFirstRequest(cfg, yearStart, yearEnd, upstream, step.1, bound);
      var rest := RunChunks(cfg, yearStart, yearEnd, upstream, step.1, bound);
      assert t.requests == [CurrentRequest(cfg, yearStart, yearEnd, c)] + rest.requests;
      assert |t.pages| == |rest.pages| + 1;
      if |rest.requests| > 0 {
        assert t.requests[|t.requests| - 1] == rest.requests[|rest.requests| - 1];
      }
    }
  }

  /** All items of a sequence of pages, in order. */
  function Flatten(pages: seq<Page>): seq<ExtractedIssuance>
    decreases |pages|
  {
    if pages == [] then [] else pages[0] + Flatten(pages[1..])
  }

  function TotalLength(pages: seq<Page>): nat
    decreases |pages|
  {
    if pages == [] then 0 else |pages[0]| + TotalLength(pages[1..])
  }

  lemma {:induction false} FlattenLength(pages: seq<Page>)
    ensures |Flatten(pages)| == TotalLength(pages)
    decreases |pages|
  {
    if pages != [] {
      FlattenLength(pages[1..]);
    }
  }

  lemma {:induction false} FlattenAppend(a: seq<Page>, b: seq<Page>)
    ensures Flatten(a + b) == Flatten(a) + Flatten(b)
    decreases |a|
  {
    if a == [] {
      assert a + b == b;
    } else {
      assert (a + b)[0] == a[0] && (a + b)[1..] == a[1..] + b;
      FlattenAppend(a[1..], b);
    }
  }

  /** What `scrapeAllIssuances` returns for a trace: the pages concatenated, or the throw. */
  function AggregateOf(t: Trace): Result<seq<ExtractedIssuance>, Thrown>
  {
    if t.thrown.Some? then Failure(t.thrown.value) else Success(Flatten(t.pages))
  }

  /** One pull while draining: a page joins the pages seen so far and the rest of the run
      is the run from the new state; the end or a throw settles the aggregate. */
  lemma DrainStep(cfg: Config, yearStart: Num, yearEnd: Num, upstream: Upstream, bound: int,
                  whole: Trace, seen: seq<Page>, c: Cursor)
    requires Drains(cfg, upstream, yearStart, yearEnd, bound)
    requires var rest := RunChunks(cfg, yearStart, yearEnd, upstream, c, bound);
      whole.pages == seen + rest.pages && whole.thrown == rest.thrown
    ensures var step := Step(cfg, yearStart, yearEnd, upstream, c);
      && (step.0.Yield? ==>
            && Remaining(cfg, step.1, bound) < Remaining(cfg, c, bound)
            && var rest := RunChunks(cfg, yearStart, yearEnd, upstream, step.1, bound);
            whole.pages == (seen + [step.0.page]) + rest.pages && whole.thrown == rest.thrown
            && Flatten(seen + [step.0.page]) == Flatten(seen) + step.0.page)
      && (step.0.Done? ==> AggregateOf(whole) == Success(Flatten(seen)))
      && (step.0.Threw? ==> AggregateOf(whole) == Failure(step.0.thrown))
  {
    RunUnfold(cfg, yearStart, yearEnd, upstream, c, bound);
    var step := Step(cfg, yearStart, yearEnd, upstream, c);
    if step.0.Yield? {
      var rest := RunChunks(cfg, yearStart, yearEnd, upstream, step.1, bound);
      assert seen + ([step.0.page] + rest.pages) == (seen + [step.0.page]) + rest.pages;
      FlattenAppend(seen, [step.0.page]);
      assert Flatten([step.0.page]) == step.0.page + Flatten([]);
    } else if step.0.Done? {
      assert seen + [] == seen;
    }
  }

  // ---------------------------------------------------------------------------
  // The scraper and its generator as objects

  class BspIssuanceScraper {
    const baseUrl: string
    const chunkSize: int
    const maxChunks: Option<int>

    function Settings(): Config
    {
      Config(baseUrl, chunkSize, maxChunks)
    }

    /** The check the constructor makes before returning. */
    predicate Valid()
    {
      chunkSize > 0
    }

    /** Assigns the fields with their `||` defaults, as the source does before its check. */
    constructor (options: ScraperOptions)
      ensures Valid() <==> Configure(options).Success?
      ensures Valid() ==> Settings() == Configure(options).value
    {
      baseUrl := if TruthyString(options.baseUrl) then options.baseUrl.value else DefaultBaseUrl;
      chunkSize := if TruthyNumber(options.chunkSize) then options.chunkSize.value.value else DefaultChunkSize;
      maxChunks := if TruthyNumber(options.maxChunks) then Some(options.maxChunks.value.value) else None;
    }

    /** `extractDownloadLink`: scan the anchors in order and stop at the first PDF link. */
    method ExtractDownloadLink(htmlContent: seq<Option<string>>) returns (downloadLink: Option<string>)
      ensures downloadLink == FirstPdfLink(baseUrl, htmlContent)
    {
      downloadLink := None;
      var i := 0;
      while i < |htmlContent|
        invariant 0 <= i <= |htmlContent|
        invariant FirstPdfLink(baseUrl, htmlContent[i..]) == FirstPdfLink(baseUrl, htmlContent)
      {
        var href := htmlContent[i];
        if href.Some? && href.value != "" && Includes(href.value, ".pdf") {
          if StartsWith(href.value, "/") {
            downloadLink := Some(baseUrl + href.value);
          } else {
            downloadLink := Some(href.value);
          }
          return;
        }
        assert htmlContent[i..][1..] == htmlContent[i + 1..];
        i := i + 1;
      }
    }

    /** `scrapeIssuancesInChunks`: a generator that has not been pulled yet. */
    method ScrapeIssuancesInChunks(yearStart: Option<Num>, yearEnd: Option<Num>) returns (cursor: ChunkCursor)
      requires Valid()
      ensures fresh(cursor) && cursor.Valid() && cursor.settings == Settings()
      ensures cursor.yearStart == YearArgument(yearStart, DefaultYearStart)
      ensures cursor.yearEnd == YearArgument(yearEnd, DefaultYearEnd)
      ensures cursor.State() == Start && cursor.requests == []
    {
      cursor := new ChunkCursor(Settings(), YearArgument(yearStart, DefaultYearStart), YearArgument(yearEnd, DefaultYearEnd));
    }

    /** `scrapeAllIssuances`: drain the generator, concatenating its pages; a throw
        propagates and discards what was collected. */
    method ScrapeAllIssuances(yearStart: Option<Num>, yearEnd: Option<Num>, upstream: Upstream, ghost bound: int)
      returns (r: Result<seq<ExtractedIssuance>, Thrown>)
      requires Valid()
      requires Drains(Settings(), upstream, YearArgument(yearStart, DefaultYearStart), YearArgument(yearEnd, DefaultYearEnd), bound)
      ensures r == AggregateOf(RunChunks(Settings(), YearArgument(yearStart, DefaultYearStart),
                                         YearArgument(yearEnd, DefaultYearEnd), upstream, Start, bound))
    {
      ghost var cfg := Settings();
      var ys, ye := YearArgument(yearStart, DefaultYearStart), YearArgument(yearEnd, DefaultYearEnd);
      var cursor := ScrapeIssuancesInChunks(Some(ys), Some(ye));
      var allIssuances: seq<ExtractedIssuance> := [];
      ghost var whole := RunChunks(cfg, ys, ye, upstream, Start, bound);
      ghost var seen: seq<Page> := [];
      var draining := true;
      r := Success([]);
      while draining
        invariant fresh(cursor) && cursor.Valid()
        invariant cursor.settings == cfg && cursor.yearStart == ys && cursor.yearEnd == ye
        invariant allIssuances == Flatten(seen)
        invariant draining ==>
          var rest := RunChunks(cfg, ys, ye, upstream, cursor.State(), bound);
          whole.pages == seen + rest.pages && whole.thrown == rest.thrown
        invariant !draining ==> r == AggregateOf(whole)
        decreases draining, Remaining(cfg, cursor.State(), bound)
      {
        DrainStep(cfg, ys, ye, upstream, bound, whole, seen, cursor.State());
        var step := cursor.Next(upstream);
        if step.Yield? {
          allIssuances := allIssuances + step.page;
          seen := seen + [step.page];
        } else if step.Done? {
          r := Success(allIssuances);
          draining := false;
        } else {
          r := Failure(step.thrown);
          draining := false;
        }
      }
    }
  }

  /** `new BspIssuanceScraper(options)`, which throws when the resolved `chunkSize` is not positive. */
  method NewScraper(options: ScraperOptions) returns (r: Result<BspIssuanceScraper, Thrown>)
    ensures r.Failure? <==> Configure(options).Failure?
    ensures r.Failure? ==> r.error == Configure(options).error
    ensures r.Success? ==> fresh(r.value) && r.value.Valid() && r.value.Settings() == Configure(options).value
  {
    var scraper := new BspIssuanceScraper(options);
    if scraper.chunkSize <= 0 {
      r := Failure(ErrorObject(ChunkSizeError));
    } else {
      r := Success(scraper);
    }
  }

  /** The suspended generator of one `scrapeIssuancesInChunks` call. */
  class ChunkCursor {
    const settings: Config
    const yearStart: Num
    const yearEnd: Num
    var skip: int
    var chunksProcessed: int
    var hasMoreData: bool
    var finished: bool
    /** The upstream requests issued so far. */
    ghost var requests: seq<Request>

    function State(): Cursor
      reads this
    {
      Cursor(skip, chunksProcessed, hasMoreData, finished)
    }

    ghost predicate Valid()
      reads this
    {
      settings.chunkSize > 0 && CursorInv(settings, State())
    }

    constructor (settings: Config, yearStart: Num, yearEnd: Num)
      requires settings.chunkSize > 0
      ensures Valid() && State() == Start && requests == []
      ensures this.settings == settings && this.yearStart == yearStart && this.yearEnd == yearEnd
    {
      this.settings := settings;
      this.yearStart := yearStart;
      this.yearEnd := yearEnd;
      skip, chunksProcessed, hasMoreData, finished := 0, 0, true, false;
      requests := [];
    }

    /** `generator.next()`: run the loop body until the next `yield`, `return` or throw. */
    method Next(upstream: Upstream) returns (r: StepResult)
      requires Valid()
      modifies this
      ensures Valid()
      ensures (r, State()) == Step(settings, yearStart, yearEnd, upstream, old(State()))
      ensures requests == old(requests) + StepRequests(settings, yearStart, yearEnd, old(State()))
    {
      ghost var before := State();
      StepKeepsInv(settings, yearStart, yearEnd, upstream, before);
      if finished || !hasMoreData || (settings.maxChunks.Some? && chunksProcessed >= settings.maxChunks.value) {
        finished := true;
        return Done;
      }
      var request := Request(yearStart, yearEnd, skip, settings.chunkSize);
      requests := requests + [request];
      var data := upstream(request);
      if data.FetchFailed? {
        finished := true;
        return Threw(data.thrown);
      }
      var items := data.response.value;
      if items.None? || |items.value| == 0 {
        hasMoreData := false;
        finished := true;
        return Done;
      }
      r := Yield(ProcessIssuanceItems(settings.baseUrl, items.value));
      skip := skip + settings.chunkSize;
      chunksProcessed := chunksProcessed + 1;
      if |items.value| < settings.chunkSize {
        hasMoreData := false;
      }
    }
  }
}
