/**
 * The OCR result and error types (backend/app/providers/ocr/base.py) and the Google
 * Vision provider (backend/app/providers/ocr/google_vision.py): the request it sends,
 * how it turns the response into a result (the empty case, the bounding boxes of every
 * annotation after the first, the confidence estimate) and its language heuristic.
 * The Vision client is an oracle from request to response or raised error.
 */
module OcrVision {
  import opened Wrappers
  import opened Strings

  /** A metadata value. */
  datatype Value = VStr(s: string) | VInt(i: int) | VBool(b: bool)

  datatype Vertex = Vertex(x: int, y: int)

  /** One entry of `bounding_boxes`. */
  datatype BoundingBox = BoundingBox(text: string, vertices: seq<Vertex>)

  /** `OCRResult` */
  datatype OcrResult = OcrResult(
    text: string, confidence: real, language: Option<string>,
    boundingBoxes: Option<seq<BoundingBox>>, metadata: Option<map<string, Value>>)

  /** `OCRError` with its provider and error code. */
  datatype OcrError = OcrError(message: string, provider: Option<string>, errorCode: Option<string>)

  const VisionProvider := "google_vision"

  // ---------------------------------------------------------------------------------
  // Language heuristic

  /** The characters `_detect_language` counts: `isalpha()` or beyond ASCII. Among ASCII
      characters only the letters are alphabetic, and every other character passes the
      second test, so the alphabet test needs no Unicode table. */
  predicate Counted(c: char) {
    'A' <= c <= 'Z' || 'a' <= c <= 'z' || c as int > 127
  }

  /** The number of counted characters of `s`. */
  function CountedChars(s: string): (n: nat)
    ensures n <= |s|
  {
    if s == [] then 0 else CountedChars(s[..|s| - 1]) + (if Counted(s[|s| - 1]) then 1 else 0)
  }

  /** The number of counted characters of `s` that are Japanese. */
  function JapaneseChars(s: string): (n: nat)
    ensures n <= CountedChars(s)
  {
    if s == [] then 0
    else JapaneseChars(s[..|s| - 1]) + (if Counted(s[|s| - 1]) && IsJapaneseChar(s[|s| - 1]) then 1 else 0)
  }

  /** `_detect_language`: nothing for no counted character, else "ja" when at least 30%
      of the counted characters are Japanese, else "en". */
  function DetectLanguage(text: string): (r: Option<string>)
    ensures r.None? <==> CountedChars(text) == 0
    ensures r == Some("ja") <==> CountedChars(text) > 0 && 10 * JapaneseChars(text) >= 3 * CountedChars(text)
    ensures r.Some? ==> r.value == "ja" || r.value == "en"
  {
    if text == [] then None
    else
      var total := CountedChars(text);
      if total == 0 then None
      else if 10 * JapaneseChars(text) >= 3 * total then Some("ja")
      else Some("en")
  }

  /** `_detect_language` with its counting loop. */
  method DetectLanguageOf(text: string) returns (r: Option<string>)
    ensures r == DetectLanguage(text)
  {
    if text == [] {
      return None;
    }
    var japanese := 0;
    var total := 0;
    for i := 0 to |text|
      invariant total == CountedChars(text[..i])
      invariant japanese == JapaneseChars(text[..i])
    {
      assert text[..i + 1][..i] == text[..i];
      var c := text[i];
      if Counted(c) {
        total := total + 1;
        if IsJapaneseChar(c) {
          japanese := japanese + 1;
        }
      }
    }
    assert text[..|text|] == text;
    if total == 0 {
      return None;
    }
    if 10 * japanese >= 3 * total {
      return Some("ja");
    }
    return Some("en");
  }

  /** Every Japanese character is counted, and counted as Japanese. */
  lemma {:induction false} AllJapaneseCounts(s: string)
    requires forall i :: 0 <= i < |s| ==> IsJapaneseChar(s[i])
    ensures JapaneseChars(s) == CountedChars(s) == |s|
  {
    if s != [] {
      AllJapaneseCounts(s[..|s| - 1]);
    }
  }

  /** A text written only in kana and kanji is Japanese. */
  lemma JapaneseTextIsJa(s: string)
    requires s != [] && forall i :: 0 <= i < |s| ==> IsJapaneseChar(s[i])
    ensures DetectLanguage(s) == Some("ja")
  {
    AllJapaneseCounts(s);
  }

  /** ASCII letters are counted and never Japanese. */
  lemma {:induction false} AsciiLettersCount(s: string)
    requires forall i :: 0 <= i < |s| ==> 'A' <= s[i] <= 'Z' || 'a' <= s[i] <= 'z'
    ensures JapaneseChars(s) == 0 && CountedChars(s) == |s|
  {
    if s != [] {
      AsciiLettersCount(s[..|s| - 1]);
    }
  }

  /** A text of ASCII letters only is English. */
  lemma AsciiTextIsEn(s: string)
    requires s != [] && forall i :: 0 <= i < |s| ==> 'A' <= s[i] <= 'Z' || 'a' <= s[i] <= 'z'
    ensures DetectLanguage(s) == Some("en")
  {
    AsciiLettersCount(s);
  }

  /** Digits, spaces and ASCII punctuation carry no language. */
  lemma {:induction false} UncountedTextHasNoLanguage(s: string)
    requires forall i :: 0 <= i < |s| ==> !Counted(s[i])
    ensures DetectLanguage(s) == None
  {
    if s != [] {
      UncountedTextHasNoLanguage(s[..|s| - 1]);
    }
  }

  /** Appending a Japanese character keeps a Japanese verdict. */
  lemma MoreJapaneseStaysJa(s: string, c: char)
    requires IsJapaneseChar(c) && DetectLanguage(s) == Some("ja")
    ensures DetectLanguage(s + [c]) == Some("ja")
  {
    assert (s + [c])[..|s + [c]| - 1] == s;
  }

  // ---------------------------------------------------------------------------------
  // Text detection

  /** What the client receives: the image and, only for a non-empty hint list, an image
      context carrying it. */
  datatype VisionRequest = VisionRequest(content: seq<bv8>, languageHints: Option<seq<string>>)

  datatype Annotation = Annotation(description: string, vertices: seq<Vertex>)

  /** The response's `error.message` (empty when there is none), `error.code` and
      `text_annotations`. */
  datatype VisionResponse = VisionResponse(errorMessage: string, errorCode: int, annotations: seq<Annotation>)

  /** The `code` of a `GoogleAPIError`: absent on errors such as `RetryError`, else the
      attribute's value, which may be None. */
  datatype ApiCode = Uncoded | Coded(code: Option<int>)

  /** What the call can raise: a `GoogleAPIError` with its code, or anything else. */
  datatype CallFailure = GoogleApiError(message: string, code: ApiCode) | OtherFailure(message: string)

  function VisionRequestFor(image: seq<bv8>, hints: Option<seq<string>>): (q: VisionRequest)
    ensures q.content == image
    ensures q.languageHints.Some? <==> hints.Some? && hints.value != []
    ensures q.languageHints.Some? ==> q.languageHints == hints
  {
    VisionRequest(image, if hints.Some? && hints.value != [] then hints else None)
  }

  /** One box per annotation, with its description and vertices. */
  function Boxes(anns: seq<Annotation>): (r: seq<BoundingBox>)
    ensures |r| == |anns|
    ensures forall k :: 0 <= k < |anns| ==> r[k] == BoundingBox(anns[k].description, anns[k].vertices)
  {
    if anns == [] then []
    else Boxes(anns[..|anns| - 1]) + [BoundingBox(anns[|anns| - 1].description, anns[|anns| - 1].vertices)]
  }

  /** `min(0.95, len(text.strip()) / max(1, len(text)) * 0.9 + 0.1)` */
  function Confidence(text: string): (c: real)
    ensures 0.1 <= c <= 0.95
    ensures AllSpace(text) ==> c == 0.1
  {
    var denominator := if |text| > 1 then |text| else 1;
    var estimate := Ratio(|Strip(text)|, denominator) * 0.9 + 0.1;
    if estimate < 0.95 then estimate else 0.95
  }

  /** `n / d` in floating point, for a count over a positive count. */
  function Ratio(n: nat, d: nat): (q: real)
    requires d > 0
    ensures q >= 0.0 && (n == 0 ==> q == 0.0)
  {
    n as real / d as real
  }

  const ApiErrorPrefix := "Google Vision API error: "
  const UnexpectedPrefix := "Unexpected error in Google Vision OCR: "

  function ErrorCodeString(code: Option<int>): string {
    match code
    case None => "None"
    case Some(c) => IntToString(c)
  }

  /** `str(e.code) if hasattr(e, 'code') else None` */
  function ErrorCodeOf(code: ApiCode): (r: Option<string>)
    ensures r.None? <==> code.Uncoded?
  {
    match code
    case Uncoded => None
    case Coded(c) => Some(ErrorCodeString(c))
  }

  /**
   * `extract_text` of the Vision provider. A response carrying an error message raises
   * an OCRError inside the `try`; that error is not a `GoogleAPIError`, so the generic
   * handler wraps it again as unexpected and its code is lost.
   */
  function VisionExtraction(image: seq<bv8>, hints: Option<seq<string>>,
                            call: VisionRequest -> Result<VisionResponse, CallFailure>)
    : (r: Result<OcrResult, OcrError>)
  {
    match call(VisionRequestFor(image, hints))
    case Failure(GoogleApiError(m, code)) =>
      Failure(OcrError(ApiErrorPrefix + m, Some(VisionProvider), ErrorCodeOf(code)))
    case Failure(OtherFailure(m)) => Failure(OcrError(UnexpectedPrefix + m, Some(VisionProvider), None))
    case Success(resp) =>
      if resp.errorMessage != "" then
        Failure(OcrError(UnexpectedPrefix + ApiErrorPrefix + resp.errorMessage, Some(VisionProvider), None))
      else if resp.annotations == [] then
        Success(OcrResult("", 0.0, None, None, Some(map["provider" := VStr(VisionProvider), "texts_count" := VInt(0)])))
      else
        var fullText := resp.annotations[0].description;
        var boxes := Boxes(resp.annotations[1..]);
        Success(OcrResult(fullText, Confidence(fullText), DetectLanguage(fullText), Some(boxes),
          Some(map["provider" := VStr(VisionProvider), "texts_count" := VInt(|resp.annotations|),
                   "has_bounding_boxes" := VBool(|boxes| > 0)])))
  }

  /** `extract_text` with its bounding-box loop. */
  method ExtractText(image: seq<bv8>, hints: Option<seq<string>>,
                     call: VisionRequest -> Result<VisionResponse, CallFailure>)
    returns (r: Result<OcrResult, OcrError>)
    ensures r == VisionExtraction(image, hints, call)
  {
    var answer := call(VisionRequestFor(image, hints));
    if answer.Failure? {
      match answer.error
      case GoogleApiError(m, code) =>
        return Failure(OcrError(ApiErrorPrefix + m, Some(VisionProvider), ErrorCodeOf(code)));
      case OtherFailure(m) =>
        return Failure(OcrError(UnexpectedPrefix + m, Some(VisionProvider), None));
    }
    var resp := answer.value;
    if resp.errorMessage != "" {
      return Failure(OcrError(UnexpectedPrefix + ApiErrorPrefix + resp.errorMessage, Some(VisionProvider), None));
    }
    var texts := resp.annotations;
    if texts == [] {
      return Success(OcrResult("", 0.0, None, None, Some(map["provider" := VStr(VisionProvider), "texts_count" := VInt(0)])));
    }
    var fullText := texts[0].description;
    var boxes: seq<BoundingBox> := [];
    for i := 1 to |texts|
      invariant boxes == Boxes(texts[1..i])
    {
      assert texts[1..i + 1][..i - 1] == texts[1..i];
      boxes := boxes + [BoundingBox(texts[i].description, texts[i].vertices)];
    }
    assert texts[1..|texts|] == texts[1..];
    var language := DetectLanguageOf(fullText);
    return Success(OcrResult(fullText, Confidence(fullText), language, Some(boxes),
      Some(map["provider" := VStr(VisionProvider), "texts_count" := VInt(|texts|),
               "has_bounding_boxes" := VBool(|boxes| > 0)])));
  }

  /** With annotations, the first one is the text and every later one a box, in order;
      the confidence lies in [0.1, 0.95] and the language is the heuristic's. */
  lemma VisionResultShape(image: seq<bv8>, hints: Option<seq<string>>,
                          call: VisionRequest -> Result<VisionResponse, CallFailure>)
    requires call(VisionRequestFor(image, hints)).Success?
    requires call(VisionRequestFor(image, hints)).value.errorMessage == ""
    ensures var anns := call(VisionRequestFor(image, hints)).value.annotations;
      var r := VisionExtraction(image, hints, call);
      && r.Success? && r.value.metadata.Some? && r.value.metadata.value["provider"] == VStr(VisionProvider)
      && r.value.metadata.value["texts_count"] == VInt(|anns|)
      && (anns == [] ==> r.value.text == "" && r.value.confidence == 0.0 && r.value.language.None?
                         && r.value.boundingBoxes.None?)
      && (anns != [] ==>
            && r.value.text == anns[0].description
            && 0.1 <= r.value.confidence <= 0.95
            && r.value.language == DetectLanguage(anns[0].description)
            && r.value.boundingBoxes.Some? && |r.value.boundingBoxes.value| == |anns| - 1
            && (forall k :: 1 <= k < |anns| ==>
                  r.value.boundingBoxes.value[k - 1] == BoundingBox(anns[k].description, anns[k].vertices)))
  {
  }

  /** Every failure names the provider, and only a `GoogleAPIError` that has a `code`
      attribute keeps a code: an error reported inside the response reaches the caller
      as unexpected, without the response's code. */
  lemma VisionFailures(image: seq<bv8>, hints: Option<seq<string>>,
                       call: VisionRequest -> Result<VisionResponse, CallFailure>)
    ensures var r := VisionExtraction(image, hints, call);
      r.Failure? ==> r.error.provider == Some(VisionProvider)
    ensures var a := call(VisionRequestFor(image, hints));
      a.Success? && a.value.errorMessage != "" ==>
        VisionExtraction(image, hints, call) ==
          Failure(OcrError(UnexpectedPrefix + ApiErrorPrefix + a.value.errorMessage, Some(VisionProvider), None))
    ensures var r := VisionExtraction(image, hints, call);
      var a := call(VisionRequestFor(image, hints));
      (r.Failure? && r.error.errorCode.Some? <==> a.Failure? && a.error.GoogleApiError? && a.error.code.Coded?)
    ensures var a := call(VisionRequestFor(image, hints));
      a.Failure? && a.error.GoogleApiError? ==>
        VisionExtraction(image, hints, call) ==
          Failure(OcrError(ApiErrorPrefix + a.error.message, Some(VisionProvider), ErrorCodeOf(a.error.code)))
  {
  }
}
