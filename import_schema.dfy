/**
 * The request and response shapes of the import API: the two import kinds, the four
 * job states, the request defaults, the URL validator and the progress bound of the
 * status response.
 */
module ImportSchema {
  import opened Wrappers
  import opened Strings

  /** `ImportType`, a string enum. */
  datatype ImportType = Url | File

  function TypeValue(t: ImportType): (v: string)
    ensures v in ["url", "file"]
  {
    match t
    case Url => "url"
    case File => "file"
  }

  /** `ImportType(v)`: the member with value `v`, if there is one. */
  function ParseType(v: string): (r: Option<ImportType>)
    ensures r.Some? <==> v in ["url", "file"]
  {
    if v == "url" then Some(Url) else if v == "file" then Some(File) else None
  }

  /** `ImportStatus`, a string enum. */
  datatype ImportStatus = Pending | Processing | Completed | Failed

  function StatusValue(s: ImportStatus): (v: string)
    ensures v in ["pending", "processing", "completed", "failed"]
  {
    match s
    case Pending => "pending"
    case Processing => "processing"
    case Completed => "completed"
    case Failed => "failed"
  }

  function ParseStatus(v: string): (r: Option<ImportStatus>)
    ensures r.Some? <==> v in ["pending", "processing", "completed", "failed"]
  {
    if v == "pending" then Some(Pending)
    else if v == "processing" then Some(Processing)
    else if v == "completed" then Some(Completed)
    else if v == "failed" then Some(Failed)
    else None
  }

  /** The enum values and the members are in one-to-one correspondence, both ways round. */
  lemma TypeValuesRoundTrip(t: ImportType, v: string)
    ensures ParseType(TypeValue(t)) == Some(t)
    ensures ParseType(v).Some? ==> TypeValue(ParseType(v).value) == v
  {
  }

  lemma StatusValuesRoundTrip(s: ImportStatus, v: string)
    ensures ParseStatus(StatusValue(s)) == Some(s)
    ensures ParseStatus(v).Some? ==> StatusValue(ParseStatus(v).value) == v
  {
  }

  /** `URLImportRequest` after validation. */
  datatype UrlImportRequest = UrlImportRequest(url: string, autoTitle: bool, autoSplit: bool)

  /** `FileImportRequest` after validation. */
  datatype FileImportRequest = FileImportRequest(mediaId: string, autoTitle: bool, autoSplit: bool)

  /** The validator on `url`: only the two web schemes, written in lower case, pass. */
  predicate WebPrefixed(url: string) {
    StartsWith(url, "http://") || StartsWith(url, "https://")
  }

  /** The `HttpUrl` field type, which parses the URL before the validator runs: the
      normalized text the validator sees (`str(v)`), or the parser's message. */
  type UrlParser = string -> Result<string, string>

  /**
   * Building a `URLImportRequest` from the request body: the field type's parse first,
   * then the validator on the normalized text; an absent flag takes its default.
   */
  function MakeUrlRequest(url: string, parse: UrlParser, autoTitle: Option<bool>, autoSplit: Option<bool>)
    : (r: Result<UrlImportRequest, string>)
    ensures parse(url).Failure? ==> r == Failure(parse(url).error)
    ensures parse(url).Success? ==> (r.Success? <==> WebPrefixed(parse(url).value))
    ensures parse(url).Success? && r.Failure? ==> r.error == "URL must start with http:// or https://"
    ensures r.Success? ==> parse(url).Success? && r.value.url == parse(url).value
    ensures r.Success? ==> r.value.autoTitle == autoTitle.GetOr(true) && r.value.autoSplit == autoSplit.GetOr(true)
  {
    match parse(url)
    case Failure(e) => Failure(e)
    case Success(normalized) =>
      if !WebPrefixed(normalized) then Failure("URL must start with http:// or https://")
      else Success(UrlImportRequest(normalized, autoTitle.GetOr(true), autoSplit.GetOr(true)))
  }

  function MakeFileRequest(mediaId: string, autoTitle: Option<bool>, autoSplit: Option<bool>)
    : (r: FileImportRequest)
    ensures r.mediaId == mediaId
    ensures autoTitle.None? ==> r.autoTitle
    ensures autoSplit.None? ==> r.autoSplit
    ensures autoTitle.Some? ==> r.autoTitle == autoTitle.value
    ensures autoSplit.Some? ==> r.autoSplit == autoSplit.value
  {
    FileImportRequest(mediaId, autoTitle.GetOr(true), autoSplit.GetOr(true))
  }

  /** A request that leaves both flags out asks for an AI title and for splitting. */
  lemma DefaultsAreOn(url: string, parse: UrlParser, mediaId: string)
    requires parse(url).Success? && WebPrefixed(parse(url).value)
    ensures MakeUrlRequest(url, parse, None, None).value.autoTitle && MakeUrlRequest(url, parse, None, None).value.autoSplit
    ensures MakeFileRequest(mediaId, None, None).autoTitle && MakeFileRequest(mediaId, None, None).autoSplit
  {
  }

  /** A URL the field type refuses, or whose normalized text has another prefix, never
      passes. */
  lemma OtherSchemesRefused(url: string, parse: UrlParser)
    requires parse(url).Failure? || StartsWith(parse(url).value, "ftp://") || StartsWith(parse(url).value, "HTTP://") || parse(url).value == []
    ensures MakeUrlRequest(url, parse, None, None).Failure?
  {
    if parse(url).Success? {
      var n := parse(url).value;
      if StartsWith(n, "ftp://") {
        assert n[0] == 'f';
      } else if StartsWith(n, "HTTP://") {
        assert n[0] == 'H';
      }
    }
  }

  /** The validator sees the parsed text, not the raw one: when the field type lower-cases
      the scheme and adds the root path, "HTTP://x.com" passes and is kept normalized. */
  lemma NormalizedUrlKept(parse: UrlParser)
    requires parse("HTTP://x.com") == Success("http://x.com/")
    ensures MakeUrlRequest("HTTP://x.com", parse, None, None) == Success(UrlImportRequest("http://x.com/", true, true))
  {
    assert WebPrefixed("http://x.com/") by {
      assert "http://x.com/"[..7] == "http://";
    }
  }

  /** The constraint `ge=0.0, le=1.0` on `ImportStatusResponse.progress`. */
  predicate ProgressInRange(p: real) {
    0.0 <= p <= 1.0
  }

  /** What `ImportStatusResponse` exposes of a job. */
  datatype StatusView = StatusView(
    importId: string, kind: ImportType, status: ImportStatus, progress: real,
    noteId: Option<string>, totalPages: Option<nat>, textLength: Option<nat>, title: Option<string>,
    errorMessage: Option<string>, errorCode: Option<string>,
    createdAt: int, updatedAt: int, completedAt: Option<int>)

  /** Building an `ImportStatusResponse`: pydantic refuses a progress outside [0, 1]. */
  function MakeStatusView(importId: string, kind: ImportType, status: ImportStatus, progress: real,
                          noteId: Option<string>, totalPages: Option<nat>, textLength: Option<nat>,
                          title: Option<string>, errorMessage: Option<string>, errorCode: Option<string>,
                          createdAt: int, updatedAt: int, completedAt: Option<int>)
    : (r: Result<StatusView, string>)
    ensures r.Success? <==> ProgressInRange(progress)
    ensures r.Success? ==> r.value.importId == importId && r.value.status == status && r.value.progress == progress
  {
    if ProgressInRange(progress) then
      Success(StatusView(importId, kind, status, progress, noteId, totalPages, textLength, title, errorMessage, errorCode,
                         createdAt, updatedAt, completedAt))
    else
      Failure("progress must be between 0.0 and 1.0")
  }
}
