/**
 * The OCR HTTP endpoints (backend/app/api/api_v1/endpoints/ocr.py): checks on the
 * uploaded file and on the base64 payload, the parsing of language hints, the mapping of
 * errors to HTTP statuses, the provider listing and the uid shown in the logs. The
 * service call is an oracle from image, provider name and hints to an OCR result or an
 * OCRError; base64 decoding is an oracle too.
 */
module OcrApi {
  import opened Wrappers
  import opened Strings
  import opened OcrVision
  import OcrService

  /** `OCRResponse` */
  datatype OcrResponse = OcrResponse(
    text: string, confidence: real, language: Option<string>, provider: Option<Value>,
    boundingBoxes: Option<seq<BoundingBox>>, metadata: Option<map<string, Value>>)

  datatype Reply = Ok(response: OcrResponse) | HttpError(status: nat, detail: string)

  /** Upload and payload limit (10 MiB). */
  const MaxFileBytes: nat := 10 * 1024 * 1024

  const ImageOnly := "画像ファイルのみサポートしています"
  const TooLarge := "ファイルサイズが10MBを超えています"
  const NotBase64Image := "有効なBase64画像データではありません"
  const DecodeFailed := "Base64データのデコードに失敗しました"
  const OcrFailedPrefix := "OCR処理エラー: "
  const InternalError := "テキスト抽出処理中にエラーが発生しました"

  /** The service call: image, provider name and language hints. */
  type OcrCall = (seq<bv8>, Option<string>, Option<seq<string>>) -> Result<OcrResult, OcrError>

  /** `language_hints` of the form: split on commas, each piece stripped; nothing when the
      field is absent or empty. */
  function LanguageHints(field: Option<string>): (r: seq<string>)
    ensures field.None? || field.value == "" ==> r == []
    ensures field.Some? && field.value != "" ==>
      && |r| == |Split(field.value, ',')|
      && forall k :: 0 <= k < |r| ==> r[k] == Strip(Split(field.value, ',')[k]) && ',' !in r[k]
  {
    if field.None? || field.value == "" then []
    else
      var pieces := Split(field.value, ',');
      seq(|pieces|, k requires 0 <= k < |pieces| => Strip(pieces[k]))
  }

  /** `metadata.get('provider') if metadata else None` */
  function ProviderOf(metadata: Option<map<string, Value>>): Option<Value> {
    if metadata.Some? && metadata.value != map[] && "provider" in metadata.value then Some(metadata.value["provider"])
    else None
  }

  /** The response built from a result; a confidence outside [0, 1] fails the model's
      validation, which the generic handler turns into 500. */
  function Respond(result: OcrResult): (r: Reply)
    ensures r.Ok? <==> 0.0 <= result.confidence <= 1.0
    ensures r.Ok? ==>
      r.response.text == result.text && r.response.language == result.language &&
      r.response.provider == ProviderOf(result.metadata)
    ensures r.HttpError? ==> r == HttpError(500, InternalError)
  {
    if 0.0 <= result.confidence <= 1.0 then
      Ok(OcrResponse(result.text, result.confidence, result.language, ProviderOf(result.metadata),
        result.boundingBoxes, result.metadata))
    else HttpError(500, InternalError)
  }

  /** The OCR outcome as a reply: an OCRError is 422 with its message. */
  function OcrReply(outcome: Result<OcrResult, OcrError>): (r: Reply)
    ensures outcome.Failure? ==> r == HttpError(422, OcrFailedPrefix + outcome.error.message)
    ensures outcome.Success? ==> r == Respond(outcome.value)
  {
    match outcome
    case Failure(e) => HttpError(422, OcrFailedPrefix + e.message)
    case Success(result) => Respond(result)
  }

  /** `extract_text_from_image` (upload): a content type that is missing or not
      "image/…" is 400 and a file over 10 MiB is 413, both before the service is called;
      the hints are always passed as a list. */
  function ExtractFromUpload(contentType: Option<string>, content: seq<bv8>, hintsField: Option<string>,
                             provider: Option<string>, ocr: OcrCall): (r: Reply)
    ensures contentType.None? || !StartsWith(contentType.value, "image/") ==> r == HttpError(400, ImageOnly)
    ensures contentType.Some? && StartsWith(contentType.value, "image/") && |content| > MaxFileBytes ==>
      r == HttpError(413, TooLarge)
    ensures contentType.Some? && StartsWith(contentType.value, "image/") && |content| <= MaxFileBytes ==>
      r == OcrReply(ocr(content, provider, Some(LanguageHints(hintsField))))
  {
    if contentType.None? || !StartsWith(contentType.value, "image/") then HttpError(400, ImageOnly)
    else if |content| > MaxFileBytes then HttpError(413, TooLarge)
    else OcrReply(ocr(content, provider, Some(LanguageHints(hintsField))))
  }

  /** `extract_text_from_base64`: the payload must start with "data:image/"; the part
      after the first comma is decoded; a payload with no comma fails the unpacking and
      ends as 500. */
  function ExtractFromBase64(imageData: string, hints: Option<seq<string>>, provider: Option<string>,
                             b64decode: string -> Option<seq<bv8>>, ocr: OcrCall): (r: Reply)
    ensures !StartsWith(imageData, "data:image/") ==> r == HttpError(400, NotBase64Image)
    ensures StartsWith(imageData, "data:image/") && ',' !in imageData ==> r == HttpError(500, InternalError)
    ensures StartsWith(imageData, "data:image/") && ',' in imageData ==>
      var encoded := imageData[IndexOfChar(imageData, ',') + 1..];
      && (b64decode(encoded).None? ==> r == HttpError(400, DecodeFailed))
      && (b64decode(encoded).Some? && |b64decode(encoded).value| > MaxFileBytes ==> r == HttpError(413, TooLarge))
      && (b64decode(encoded).Some? && |b64decode(encoded).value| <= MaxFileBytes ==>
            r == OcrReply(ocr(b64decode(encoded).value, provider, hints)))
  {
    if !StartsWith(imageData, "data:image/") then HttpError(400, NotBase64Image)
    else if ',' !in imageData then HttpError(500, InternalError)
    else
      var encoded := imageData[IndexOfChar(imageData, ',') + 1..];
      match b64decode(encoded)
      case None => HttpError(400, DecodeFailed)
      case Some(bytes) =>
        if |bytes| > MaxFileBytes then HttpError(413, TooLarge)
        else OcrReply(ocr(bytes, provider, hints))
  }

  /** The part after the first comma keeps every later comma. */
  lemma EncodedPart(header: string, encoded: string)
    requires ',' !in header
    ensures var s := header + "," + encoded; s[IndexOfChar(s, ',') + 1..] == encoded
  {
    var s := header + "," + encoded;
    assert s[|header|] == ',';
    assert s[..|header|] == header;
  }

  /** A Vision result never fails the response model: its confidence lies in [0, 1]. */
  lemma VisionResultsAreAnswered(image: seq<bv8>, hints: Option<seq<string>>,
                                 call: VisionRequest -> Result<VisionResponse, CallFailure>)
    requires VisionExtraction(image, hints, call).Success?
    ensures Respond(VisionExtraction(image, hints, call).value).Ok?
    ensures Respond(VisionExtraction(image, hints, call).value).response.provider == Some(VStr(VisionProvider))
  {
    var a := call(VisionRequestFor(image, hints));
    if a.Success? && a.value.errorMessage == "" {
      VisionResultShape(image, hints, call);
    }
  }

  /** Who is asking: a dict identity or an object identity. */
  datatype User = DictUser(fields: map<string, string>) | ObjectUser(uid: Option<string>)

  /** `_get_user_uid` */
  function UserUid(user: User): string {
    match user
    case DictUser(fields) => if "uid" in fields then fields["uid"] else "unknown"
    case ObjectUser(uid) => if uid.Some? then uid.value else "unknown"
  }

  /** Both identity forms give the same uid for the same user, and "unknown" when they
      carry none. */
  lemma UidOfEitherForm(u: string, other: map<string, string>)
    requires "uid" !in other
    ensures UserUid(DictUser(other["uid" := u])) == UserUid(ObjectUser(Some(u))) == u
    ensures UserUid(DictUser(other)) == UserUid(ObjectUser(None)) == "unknown"
  {
  }

  /** `_get_provider_description` */
  function ProviderDescription(name: string): (d: string)
    ensures name !in {"google_vision", "aws_textract", "azure_computer_vision"} ==> d == name + " OCR provider"
  {
    if name == "google_vision" then "Google Cloud Vision API - 高精度な日本語・英語OCR"
    else if name == "aws_textract" then "Amazon Textract - 文書レイアウト解析対応"
    else if name == "azure_computer_vision" then "Azure Computer Vision - Microsoft OCRサービス"
    else name + " OCR provider"
  }

  /** The `default_provider` of the listing. */
  function DefaultProvider(providers: seq<string>): (r: Option<string>)
    ensures r.None? <==> providers == []
    ensures r.Some? ==> r.value in providers
    ensures VisionProvider in providers ==> r == Some(VisionProvider)
  {
    if VisionProvider in providers then Some(VisionProvider)
    else if providers != [] then Some(providers[0])
    else None
  }

  /** The listing names as default the provider the service picks when none is asked
      for. */
  lemma DefaultIsServiceChoice(s: OcrService.Service)
    ensures DefaultProvider(s.AvailableProviders()) == s.SelectProvider(None)
  {
  }

  datatype ProviderDetail = ProviderDetail(name: string, available: bool, description: string)

  /** `get_available_providers` (endpoint): one entry per registered provider, in order. */
  function ProviderListing(s: OcrService.Service, available: string -> bool)
    : (r: (seq<ProviderDetail>, Option<string>))
    reads s
    ensures |r.0| == |s.providers|
    ensures forall k :: 0 <= k < |r.0| ==>
      r.0[k] == ProviderDetail(s.providers[k], available(s.providers[k]), ProviderDescription(s.providers[k]))
    ensures r.1 == s.SelectProvider(None)
  {
    var names := s.AvailableProviders();
    (seq(|names|, k requires 0 <= k < |names| reads s =>
       ProviderDetail(names[k], s.IsProviderAvailable(names[k], available), ProviderDescription(names[k]))),
     DefaultProvider(names))
  }
}
