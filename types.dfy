/** The records exchanged with the upstream list API and returned to callers
    (src/types.ts), the fields the scraper actually reads, and the abstract
    shape of one upstream request. */
module Types {
  import opened Text

  datatype Option<+T> = None | Some(value: T)

  datatype Result<+R, +E> = Success(value: R) | Failure(error: E)

  /** One raw upstream record, restricted to the fields the scraper reads.
      `Content` is an HTML fragment; it is modelled as the `href` attribute of
      each of its `<a>` elements in document order (`None` when an anchor has
      no `href`). */
  datatype IssuanceItem = IssuanceItem(
    Id: int,
    Title: string,
    CircularNumber: string,
    IssuanceType: string,
    DateIssued: string,
    Content: seq<Option<string>>)

  /** The response envelope; `value` may be missing from a response body. */
  datatype ApiResponse = ApiResponse(value: Option<seq<IssuanceItem>>, nextLink: Option<string>)

  /** The normalised record handed back to callers. */
  datatype ExtractedIssuance = ExtractedIssuance(
    id: int,
    title: string,
    circularNumber: string,
    issuanceType: string,
    dateIssued: string,
    downloadLink: Option<string>)

  /** A page of normalised records, as one step of the chunked scraper yields it. */
  type Page = seq<ExtractedIssuance>

  /** What is thrown: an `Error` object (with its message) or any other value. */
  datatype Thrown = ErrorObject(message: string) | OtherValue

  /** The content of one upstream query: the year range, the offset and the page size.
      The query string built from these is `Scraper.GenerateApiUrl`. A year is
      whatever number the caller passed, `NaN` included. */
  datatype Request = Request(yearStart: Num, yearEnd: Num, skip: int, top: int)

  /** The outcome of one upstream fetch: the decoded envelope, or the error it threw. */
  datatype FetchResult = Fetched(response: ApiResponse) | FetchFailed(thrown: Thrown)

  /** The upstream service as seen by the scraper: the outcome of each possible request. */
  type Upstream = Request -> FetchResult
}
