/**
 * File-format detection and text extraction (backend/app/services/file_processor.py).
 * The libraries the service leans on are oracles gathered in `Library`: the MIME guess
 * from the file name, the UTF-8 check, the PDF reader, the encoding detector and the
 * two decoders. The table of supported formats is fixed when the service is built and
 * never changes, so it is a value passed to the lookups; the page loop of the PDF
 * extraction is a method proved against the function that specifies it.
 */
module FileProcessor {
  import opened Wrappers
  import opened Strings

  /** At most this many pages of a PDF are read. */
  const MaxPdfPages: nat := 100

  const PdfKeys: set<string> := {"application/pdf", "pdf"}
  const TxtKeys: set<string> := {"text/plain", "text/csv", "txt", "csv"}

  /** `_get_supported_formats`: the text entries always, the PDF entries only when the
      PDF library could be imported. */
  function SupportedFormats(pypdf: bool): (m: map<string, string>)
    ensures forall k :: k in m <==> k in TxtKeys || (pypdf && k in PdfKeys)
    ensures forall k :: k in m ==> m[k] == (if k in PdfKeys then "pdf" else "txt")
  {
    var txt := map["text/plain" := "txt", "text/csv" := "txt", "txt" := "txt", "csv" := "txt"];
    if pypdf then map["application/pdf" := "pdf", "pdf" := "pdf"] + txt else txt
  }

  /** A page the PDF reader hands back: its text, or the message of what it raised. */
  type PageText = Result<string, string>

  /** An opened PDF: every page, and the document information if any. */
  datatype PdfDocument = PdfDocument(pages: seq<PageText>, info: Option<map<string, string>>)

  /** The chardet answer: the encoding it names (None when it names none) and its
      confidence. */
  datatype Detected = Detected(encoding: Option<string>, confidence: real)

  /** What `bytes.decode` raises: UnicodeDecodeError, or anything else (an unknown
      encoding name, say). */
  datatype DecodeFailure = UnicodeError | OtherError(message: string)

  /** The libraries the service calls, as oracles. `detect` answers None when chardet is
      not installed or detects nothing. */
  datatype Library = Library(
    guessType: string -> Option<string>,
    decodesUtf8: seq<bv8> -> bool,
    readPdf: seq<bv8> -> Result<PdfDocument, string>,
    detect: seq<bv8> -> Option<Detected>,
    decode: (seq<bv8>, string) -> Result<string, DecodeFailure>,
    decodeReplacing: seq<bv8> -> string)

  const PdfMagic: seq<bv8> := [0x25, 0x50, 0x44, 0x46]

  predicate HasPdfMagic(data: seq<bv8>) {
    |data| >= 4 && data[..4] == PdfMagic
  }

  /** The first 1000 bytes, the part the UTF-8 check looks at. */
  function Head(data: seq<bv8>): (h: seq<bv8>)
    ensures |h| <= 1000 && |h| <= |data| && h == data[..|h|]
    ensures |data| <= 1000 ==> h == data
  {
    if |data| <= 1000 then data else data[..1000]
  }

  /** `_detect_mime_type`: a non-empty guess from the name wins; otherwise the `%PDF`
      signature means PDF, bytes whose first 1000 decode as UTF-8 mean plain text, and
      anything else is an octet stream. */
  function DetectMimeType(lib: Library, filename: string, data: seq<bv8>): (mime: string)
    ensures var g := lib.guessType(filename); g.Some? && g.value != "" ==> mime == g.value
    ensures var g := lib.guessType(filename); g.None? || g.value == "" ==>
      && mime in {"application/pdf", "text/plain", "application/octet-stream"}
      && (mime == "application/pdf" <==> HasPdfMagic(data))
      && (mime == "text/plain" <==> !HasPdfMagic(data) && lib.decodesUtf8(Head(data)))
  {
    var g := lib.guessType(filename);
    if g.Some? && g.value != "" then g.value
    else if HasPdfMagic(data) then "application/pdf"
    else if lib.decodesUtf8(Head(data)) then "text/plain"
    else "application/octet-stream"
  }

  /** `s.lstrip(c)` */
  function LStripChar(s: string, c: char): (r: string)
    ensures |r| <= |s| && r == s[|s| - |r|..]
    ensures forall i :: 0 <= i < |s| - |r| ==> s[i] == c
    ensures r == [] || r[0] != c
  {
    if s != [] && s[0] == c then LStripChar(s[1..], c) else s
  }

  /** `Path(filename).suffix.lower().lstrip('.')`: the lowered suffix without its dot. */
  function Extension(filename: string): (ext: string)
    ensures Suffix(filename) == [] ==> ext == []
    ensures Suffix(filename) != [] ==> ext == Lower(Suffix(filename)[1..])
    ensures '.' !in ext
  {
    var s := Lower(Suffix(filename));
    if s == [] then []
    else
      DropDot(Suffix(filename));
      LStripChar(s, '.')
  }

  /** Lowering a suffix keeps its one dot in front, and the strip takes exactly it. */
  lemma DropDot(suffix: string)
    requires |suffix| >= 2 && suffix[0] == '.' && '.' !in suffix[1..]
    ensures '.' !in Lower(suffix[1..])
    ensures LStripChar(Lower(suffix), '.') == Lower(suffix[1..])
  {
    var rest := Lower(suffix[1..]);
    forall i | 0 <= i < |rest|
      ensures rest[i] != '.'
    {
      assert suffix[1..][i] != '.';
    }
    var s := Lower(suffix);
    assert s[1..] == rest;
    assert s[0] == '.';
    assert LStripChar(rest, '.') == rest;
  }

  /** `_get_file_format`: the MIME type's entry, else the extension's, else none. */
  function GetFileFormat(formats: map<string, string>, mime: string, filename: string): (r: Option<string>)
    ensures r.Some? <==> mime in formats || Extension(filename) in formats
    ensures mime in formats ==> r == Some(formats[mime])
    ensures mime !in formats && Extension(filename) in formats ==> r == Some(formats[Extension(filename)])
  {
    if mime in formats then Some(formats[mime])
    else
      var ext := Extension(filename);
      if ext in formats then Some(formats[ext]) else None
  }

  /** `is_format_supported` */
  predicate IsFormatSupported(formats: map<string, string>, mime: string, filename: string) {
    GetFileFormat(formats, mime, filename).Some?
  }

  /** Without a file name, only the MIME type decides. */
  lemma SupportedWithoutName(formats: map<string, string>, mime: string)
    requires "" !in formats
    ensures IsFormatSupported(formats, mime, "") <==> mime in formats
  {
    assert FinalComponent("") == "";
  }

  /** The service's own table yields "pdf" or "txt", and "pdf" only with the PDF
      library: the "Handler not implemented" and "pypdf is not available" errors cannot
      be reached from `extract_text_from_file`. */
  lemma FormatsArePdfOrTxt(pypdf: bool, mime: string, filename: string)
    ensures var f := GetFileFormat(SupportedFormats(pypdf), mime, filename);
      f.None? || f.value == "txt" || (pypdf && f.value == "pdf")
  {
  }

  /** A file whose name gives no guess is read as PDF when it carries the signature (and
      the PDF library is there), and as text when its head decodes as UTF-8. */
  lemma DetectionDecidesFormat(pypdf: bool, lib: Library, filename: string, data: seq<bv8>)
    requires lib.guessType(filename).None?
    ensures var f := GetFileFormat(SupportedFormats(pypdf), DetectMimeType(lib, filename, data), filename);
      && (HasPdfMagic(data) && pypdf ==> f == Some("pdf"))
      && (!HasPdfMagic(data) && lib.decodesUtf8(Head(data)) ==> f == Some("txt"))
  {
  }

  // ---------------------------------------------------------------------------------
  // Results

  /** One `page_info` entry. */
  datatype PageInfo = PageInfo(pageNumber: nat, textLength: nat, hasText: bool, error: Option<string>)

  datatype Metadata =
    | PdfMetadata(totalPages: nat, extractedPages: nat, pageInfo: seq<PageInfo>, hasText: bool,
                  fileSize: nat, filename: string, info: map<string, Option<string>>)
    | TxtMetadata(encoding: string, confidence: real, fileSize: nat, characterCount: nat, lineCount: nat,
                  filename: string)

  /** The dictionary the extraction returns. */
  datatype Extraction = Extraction(text: string, metadata: Metadata, sourceType: string)

  // ---------------------------------------------------------------------------------
  // PDF

  /** The entry for page `k` (0-based). */
  function PageEntry(k: nat, page: PageText): (e: PageInfo)
    ensures e.pageNumber == k + 1
    ensures e.hasText <==> page.Success? && !AllSpace(page.value)
    ensures e.hasText ==> e.textLength == |page.value|
    ensures !e.hasText ==> e.textLength == 0
    ensures e.error.Some? <==> page.Failure?
  {
    match page
    case Failure(msg) => PageInfo(k + 1, 0, false, Some(msg))
    case Success(t) =>
      if Strip(t) != [] then PageInfo(k + 1, |t|, true, None) else PageInfo(k + 1, 0, false, None)
  }

  /** One entry per page, in order. */
  function PageEntries(pages: seq<PageText>): (r: seq<PageInfo>)
    ensures |r| == |pages|
    ensures forall k :: 0 <= k < |pages| ==> r[k] == PageEntry(k, pages[k])
  {
    if pages == [] then []
    else PageEntries(pages[..|pages| - 1]) + [PageEntry(|pages| - 1, pages[|pages| - 1])]
  }

  /** The texts of the pages that read without error and are not blank, in page order. */
  function KeptTexts(pages: seq<PageText>): (r: seq<string>)
    ensures |r| <= |pages|
    ensures forall t :: t in r ==> !AllSpace(t)
  {
    if pages == [] then []
    else
      var last := pages[|pages| - 1];
      KeptTexts(pages[..|pages| - 1]) + (if last.Success? && !AllSpace(last.value) then [last.value] else [])
  }

  /** A text is kept exactly when some page read as that text and it is not blank. */
  lemma {:induction false} KeptMember(pages: seq<PageText>, t: string)
    ensures t in KeptTexts(pages) <==> exists k :: 0 <= k < |pages| && pages[k] == Success(t) && !AllSpace(t)
  {
    if pages != [] {
      var init := pages[..|pages| - 1];
      KeptMember(init, t);
      if exists k :: 0 <= k < |init| && init[k] == Success(t) && !AllSpace(t) {
        var k :| 0 <= k < |init| && init[k] == Success(t) && !AllSpace(t);
        assert pages[k] == init[k];
      }
      if exists k :: 0 <= k < |pages| && pages[k] == Success(t) && !AllSpace(t) {
        var k :| 0 <= k < |pages| && pages[k] == Success(t) && !AllSpace(t);
        if k < |init| {
          assert init[k] == pages[k];
        }
      }
    }
  }

  /** The document-information fields copied when the document has any. */
  function InfoFields(info: Option<map<string, string>>): (m: map<string, Option<string>>)
    ensures info.None? || info.value == map[] ==> m == map[]
    ensures info.Some? && info.value != map[] ==>
      && m.Keys == {"title", "author", "subject", "creator", "producer", "creation_date", "modification_date"}
      && m["title"] == Get(info.value, "/Title") && m["author"] == Get(info.value, "/Author")
  {
    if info.None? || info.value == map[] then map[]
    else
      var d := info.value;
      map["title" := Get(d, "/Title"), "author" := Get(d, "/Author"), "subject" := Get(d, "/Subject"),
          "creator" := Get(d, "/Creator"), "producer" := Get(d, "/Producer"),
          "creation_date" := Get(d, "/CreationDate"), "modification_date" := Get(d, "/ModDate")]
  }

  /** `dict.get` */
  function Get(d: map<string, string>, key: string): (v: Option<string>)
    ensures v.Some? <==> key in d
    ensures v.Some? ==> v.value == d[key]
  {
    if key in d then Some(d[key]) else None
  }

  const PdfFailurePrefix := "Failed to process PDF file: "

  /** `_extract_text_from_pdf`: an unreadable document fails with its message; otherwise
      the first `min(pages, 100)` pages give one entry each and the non-blank ones the
      text, joined by blank lines. */
  function PdfExtraction(pypdf: bool, data: seq<bv8>, filename: string, reader: Result<PdfDocument, string>)
    : (r: Result<Extraction, string>)
  {
    if !pypdf then Failure("pypdf is not available")
    else match reader
      case Failure(e) => Failure(PdfFailurePrefix + e)
      case Success(doc) =>
        var n := PagesRead(doc);
        var text := Join(KeptTexts(doc.pages[..n]), "\n\n");
        Success(Extraction(text,
          PdfMetadata(|doc.pages|, n, PageEntries(doc.pages[..n]), Strip(text) != [], |data|, filename,
            InfoFields(doc.info)),
          "pdf"))
  }

  /** The PDF extraction with its page loop. */
  method ExtractPdf(pypdf: bool, data: seq<bv8>, filename: string, reader: Result<PdfDocument, string>)
    returns (r: Result<Extraction, string>)
    ensures r == PdfExtraction(pypdf, data, filename, reader)
  {
    if !pypdf {
      return Failure("pypdf is not available");
    }
    if reader.Failure? {
      return Failure(PdfFailurePrefix + reader.error);
    }
    var doc := reader.value;
    var numPages := |doc.pages|;
    if numPages > MaxPdfPages {
      numPages := MaxPdfPages;
    }
    assert numPages == PagesRead(doc);
    var extracted: seq<string> := [];
    var pageInfo: seq<PageInfo> := [];
    for pageNum := 0 to numPages
      invariant extracted == KeptTexts(doc.pages[..pageNum])
      invariant pageInfo == PageEntries(doc.pages[..pageNum])
    {
      ghost var before := doc.pages[..pageNum];
      ghost var after := doc.pages[..pageNum + 1];
      assert after[..pageNum] == before && after[pageNum] == doc.pages[pageNum];
      assert PageEntries(after) == PageEntries(before) + [PageEntry(pageNum, doc.pages[pageNum])];
      match doc.pages[pageNum]
      case Failure(e) =>
        pageInfo := pageInfo + [PageInfo(pageNum + 1, 0, false, Some(e))];
      case Success(pageText) =>
        if Strip(pageText) != [] {
          extracted := extracted + [pageText];
          pageInfo := pageInfo + [PageInfo(pageNum + 1, |pageText|, true, None)];
        } else {
          pageInfo := pageInfo + [PageInfo(pageNum + 1, 0, false, None)];
        }
    }
    var fullText := Join(extracted, "\n\n");
    var metadata := PdfMetadata(|doc.pages|, numPages, pageInfo, Strip(fullText) != [], |data|, filename,
      InfoFields(doc.info));
    return Success(Extraction(fullText, metadata, "pdf"));
  }

  /** A joined list is blank exactly when it is empty, if no part is blank. */
  lemma JoinBlank(parts: seq<string>, sep: string)
    requires forall t :: t in parts ==> !AllSpace(t)
    ensures AllSpace(Join(parts, sep)) <==> parts == []
  {
    if parts != [] {
      assert parts[0] in parts;
      var k :| 0 <= k < |parts[0]| && !IsSpace(parts[0][k]);
      if |parts| > 1 {
        assert Join(parts, sep)[k] == parts[0][k];
      }
    }
  }

  /** The number of pages read: all of them, up to 100. */
  function PagesRead(doc: PdfDocument): (n: nat)
    ensures n <= MaxPdfPages && n <= |doc.pages|
    ensures n == MaxPdfPages || n == |doc.pages|
  {
    if |doc.pages| > MaxPdfPages then MaxPdfPages else |doc.pages|
  }

  /** What a read PDF yields: the page counts, one numbered entry per page read, and the
      text made of the non-blank pages. */
  lemma PdfShape(data: seq<bv8>, filename: string, doc: PdfDocument)
    ensures var r := PdfExtraction(true, data, filename, Success(doc));
      var n := PagesRead(doc);
      && r.Success? && r.value.sourceType == "pdf" && r.value.metadata.PdfMetadata?
      && r.value.metadata.totalPages == |doc.pages| && r.value.metadata.extractedPages == n
      && |r.value.metadata.pageInfo| == n
      && (forall k :: 0 <= k < n ==> r.value.metadata.pageInfo[k] == PageEntry(k, doc.pages[k]))
      && r.value.text == Join(KeptTexts(doc.pages[..n]), "\n\n")
  {
  }

  /** `has_text` holds exactly when some page read has text. */
  lemma PdfHasText(data: seq<bv8>, filename: string, doc: PdfDocument)
    ensures var r := PdfExtraction(true, data, filename, Success(doc));
      r.Success? && r.value.metadata.PdfMetadata? &&
      (r.value.metadata.hasText <==>
        exists k :: 0 <= k < PagesRead(doc) && doc.pages[k].Success? && !AllSpace(doc.pages[k].value))
  {
    var n := PagesRead(doc);
    var pages := doc.pages[..n];
    var kept := KeptTexts(pages);
    var text := Join(kept, "\n\n");
    assert PdfExtraction(true, data, filename, Success(doc)).value.metadata.hasText == (Strip(text) != []);
    JoinBlank(kept, "\n\n");
    KeptNonEmpty(doc.pages, n);
  }

  /** Some text is kept from the first `n` pages exactly when one of them has text. */
  lemma KeptNonEmpty(all: seq<PageText>, n: nat)
    requires n <= |all|
    ensures KeptTexts(all[..n]) != [] <==> exists k :: 0 <= k < n && all[k].Success? && !AllSpace(all[k].value)
  {
    var pages := all[..n];
    var kept := KeptTexts(pages);
    if exists k :: 0 <= k < n && all[k].Success? && !AllSpace(all[k].value) {
      var k :| 0 <= k < n && all[k].Success? && !AllSpace(all[k].value);
      assert pages[k] == Success(all[k].value);
      KeptMember(pages, all[k].value);
    } else if kept != [] {
      KeptMember(pages, kept[0]);
    }
  }

  /** A reader failure and a missing library are reported, never an empty result. */
  lemma PdfFailures(data: seq<bv8>, filename: string, e: string)
    ensures PdfExtraction(false, data, filename, Success(PdfDocument([], None))) == Failure("pypdf is not available")
    ensures PdfExtraction(true, data, filename, Failure(e)) == Failure(PdfFailurePrefix + e)
  {
  }

  // ---------------------------------------------------------------------------------
  // Text

  /** `s.count(c)` */
  function CountChar(s: string, c: char): (n: nat)
    ensures n <= |s|
    ensures n == 0 <==> c !in s
  {
    if s == [] then 0 else (if s[0] == c then 1 else 0) + CountChar(s[1..], c)
  }

  lemma {:induction false} CountAppend(a: string, b: string, c: char)
    ensures CountChar(a + b, c) == CountChar(a, c) + CountChar(b, c)
  {
    if a == [] {
      assert a + b == b;
    } else {
      assert (a + b)[1..] == a[1..] + b;
      CountAppend(a[1..], b, c);
    }
  }

  /** `count('\n') + 1` is the number of pieces `split('\n')` gives. */
  lemma {:induction false} LinesCount(s: string, c: char)
    ensures |Split(s, c)| == CountChar(s, c) + 1
  {
    if c in s {
      var i := IndexOfChar(s, c);
      assert s == s[..i] + ([c] + s[i + 1..]);
      CountAppend(s[..i], [c] + s[i + 1..], c);
      CountAppend([c], s[i + 1..], c);
      LinesCount(s[i + 1..], c);
    }
  }

  const TxtFailurePrefix := "Failed to process text file: "

  /** The encoding tried first and its confidence: chardet's answer when it names an
      encoding, else UTF-8 at 1.0. */
  function Encoding(detected: Option<Detected>): (string, real) {
    if detected.Some? && detected.value.encoding.Some? && detected.value.encoding.value != "" then
      (detected.value.encoding.value, detected.value.confidence)
    else ("utf-8", 1.0)
  }

  /** `_extract_text_from_txt` */
  function TxtExtraction(lib: Library, data: seq<bv8>, filename: string): (r: Result<Extraction, string>)
    ensures var (enc, _) := Encoding(lib.detect(data));
      r.Failure? <==> lib.decode(data, enc).Failure? && lib.decode(data, enc).error.OtherError?
    ensures r.Failure? ==> r.error == TxtFailurePrefix + lib.decode(data, Encoding(lib.detect(data)).0).error.message
    ensures r.Success? ==>
      && r.value.sourceType == "txt" && r.value.metadata.TxtMetadata?
      && r.value.metadata.characterCount == |r.value.text|
      && r.value.metadata.lineCount == |Split(r.value.text, '\n')|
      && r.value.metadata.fileSize == |data| && r.value.metadata.filename == filename
    ensures var (enc, conf) := Encoding(lib.detect(data));
      lib.decode(data, enc).Success? ==>
        r == Success(Extraction(lib.decode(data, enc).value, r.value.metadata, "txt"))
        && r.value.metadata.encoding == enc && r.value.metadata.confidence == conf
    ensures var (enc, _) := Encoding(lib.detect(data));
      lib.decode(data, enc) == Failure(UnicodeError) ==>
        r.Success? && r.value.text == lib.decodeReplacing(data)
        && r.value.metadata.encoding == "utf-8" && r.value.metadata.confidence == 0.5
  {
    var (enc, conf) := Encoding(lib.detect(data));
    var decoded: Result<(string, string, real), string> := match lib.decode(data, enc)
      case Success(t) => Success((t, enc, conf))
      case Failure(UnicodeError) => Success((lib.decodeReplacing(data), "utf-8", 0.5))
      case Failure(OtherError(m)) => Failure(TxtFailurePrefix + m);
    match decoded
    case Failure(e) => Failure(e)
    case Success((text, encoding, confidence)) =>
      LinesCount(text, '\n');
      Success(Extraction(text,
        TxtMetadata(encoding, confidence, |data|, |text|, CountChar(text, '\n') + 1, filename), "txt"))
  }

  // ---------------------------------------------------------------------------------
  // Dispatch

  /** `extract_text_from_file`: empty data and an unsupported format are refused before
      any library is asked; a supplied MIME type that is empty counts as absent. */
  function Extract(pypdf: bool, lib: Library, data: seq<bv8>, filename: string, mimeType: Option<string>)
    : (r: Result<Extraction, string>)
    ensures data == [] ==> r == Failure("File data is empty")
    ensures data != [] ==>
      var mime := if mimeType.Some? && mimeType.value != "" then mimeType.value else DetectMimeType(lib, filename, data);
      var f := GetFileFormat(SupportedFormats(pypdf), mime, filename);
      && (f.None? ==> r == Failure("Unsupported file format: " + mime))
      && (f == Some("pdf") ==> r == PdfExtraction(pypdf, data, filename, lib.readPdf(data)))
      && (f == Some("txt") ==> r == TxtExtraction(lib, data, filename))
    ensures r.Success? ==> r.value.sourceType in {"pdf", "txt"}
  {
    if data == [] then Failure("File data is empty")
    else
      var mime := if mimeType.Some? && mimeType.value != "" then mimeType.value else DetectMimeType(lib, filename, data);
      match GetFileFormat(SupportedFormats(pypdf), mime, filename)
      case None => Failure("Unsupported file format: " + mime)
      case Some(f) =>
        if f == "pdf" then PdfExtraction(pypdf, data, filename, lib.readPdf(data))
        else if f == "txt" then TxtExtraction(lib, data, filename)
        else Failure("Handler not implemented for format: " + f)
  }

  /** `extract_text_from_file`, running the PDF page loop. */
  method ExtractTextFromFile(pypdf: bool, lib: Library, data: seq<bv8>, filename: string, mimeType: Option<string>)
    returns (r: Result<Extraction, string>)
    ensures r == Extract(pypdf, lib, data, filename, mimeType)
  {
    if data == [] {
      return Failure("File data is empty");
    }
    var mime := if mimeType.Some? && mimeType.value != "" then mimeType.value else DetectMimeType(lib, filename, data);
    var format := GetFileFormat(SupportedFormats(pypdf), mime, filename);
    if format.None? {
      return Failure("Unsupported file format: " + mime);
    }
    if format.value == "pdf" {
      r := ExtractPdf(pypdf, data, filename, lib.readPdf(data));
    } else if format.value == "txt" {
      r := TxtExtraction(lib, data, filename);
    } else {
      r := Failure("Handler not implemented for format: " + format.value);
    }
  }
}
