/**
 * The OCR service (backend/app/services/ocr.py): the provider registry filled at start,
 * the choice of provider, the image check before extraction and the wrapping of
 * errors. Opening, converting and resizing the image with PIL is an oracle
 * (`preprocess`), and so is each provider's `extract_text`.
 */
module OcrService {
  import opened Wrappers
  import opened Strings
  import opened OcrVision

  /** Images larger than this (10 MiB) are refused. */
  const MaxImageBytes: nat := 10 * 1024 * 1024

  /** What a provider's `extract_text` can raise: an OCRError, or anything else. */
  datatype ProviderFailure = Ocr(error: OcrError) | Unexpected(message: string)

  /** `_validate_and_preprocess_image`: empty data, an image PIL cannot handle and an
      image still over 10 MiB after conversion and resizing are refused. */
  function ValidateImage(image: seq<bv8>, preprocess: seq<bv8> -> Result<seq<bv8>, string>)
    : (r: Result<seq<bv8>, OcrError>)
    ensures image == [] ==> r == Failure(OcrError("Image data is empty", None, None))
    ensures r.Success? ==> image != [] && preprocess(image) == Success(r.value) && |r.value| <= MaxImageBytes
    ensures image != [] && preprocess(image).Failure? ==>
      r == Failure(OcrError("Invalid image data: " + preprocess(image).error, None, None))
    ensures image != [] && preprocess(image).Success? && |preprocess(image).value| > MaxImageBytes ==>
      r.Failure? && StartsWith(r.error.message, "Image file size too large: ")
  {
    if image == [] then Failure(OcrError("Image data is empty", None, None))
    else match preprocess(image)
      case Failure(e) => Failure(OcrError("Invalid image data: " + e, None, None))
      case Success(data) =>
        if |data| > MaxImageBytes then
          Failure(OcrError("Image file size too large: " + NatToString(|data|) + " bytes (max: "
            + NatToString(MaxImageBytes) + " bytes)", None, None))
        else Success(data)
  }

  class Service {
    /** The names of the registered providers, in registration order. */
    var providers: seq<string>

    /** `_initialize_providers`: the Vision provider is registered when it can be built
        and reports itself available. */
    constructor(visionBuilds: bool, visionAvailable: bool)
      ensures providers == (if visionBuilds && visionAvailable then [VisionProvider] else [])
    {
      if visionBuilds && visionAvailable {
        providers := [VisionProvider];
      } else {
        providers := [];
      }
    }

    /** The provider `extract_text_from_image` uses: the named one when registered, else
        Vision when registered, else the first registered; none when nothing is. */
    function SelectProvider(name: Option<string>): (r: Option<string>)
      reads this
      ensures r.None? <==> providers == []
      ensures r.Some? ==> r.value in providers
      ensures name.Some? && name.value != "" && name.value in providers ==> r == name
      ensures providers != [] && (name.None? || name.value == "" || name.value !in providers) ==>
        r == Some(if VisionProvider in providers then VisionProvider else providers[0])
    {
      if providers == [] then None
      else if name.Some? && name.value != "" && name.value in providers then name
      else if VisionProvider in providers then Some(VisionProvider)
      else Some(providers[0])
    }

    /** `extract_text_from_image`: with no provider, an OCRError; otherwise the image is
        checked, then handed to the chosen provider; an OCRError passes through and
        anything else is wrapped as an unexpected OCRError. */
    function ExtractTextFromImage(image: seq<bv8>, name: Option<string>, hints: Option<seq<string>>,
                                  preprocess: seq<bv8> -> Result<seq<bv8>, string>,
                                  extract: (string, seq<bv8>, Option<seq<string>>) -> Result<OcrResult, ProviderFailure>)
      : (r: Result<OcrResult, OcrError>)
      reads this
      ensures providers == [] ==> r == Failure(OcrError("No OCR providers are available", None, None))
      ensures providers != [] && ValidateImage(image, preprocess).Failure? ==>
        r == Failure(ValidateImage(image, preprocess).error)
      ensures r.Success? ==>
        && SelectProvider(name).Some?
        && ValidateImage(image, preprocess).Success?
        && extract(SelectProvider(name).value, ValidateImage(image, preprocess).value, hints) == Success(r.value)
      ensures providers != [] && ValidateImage(image, preprocess).Success? ==>
        var answer := extract(SelectProvider(name).value, ValidateImage(image, preprocess).value, hints);
        && (answer.Failure? && answer.error.Ocr? ==> r == Failure(answer.error.error))
        && (answer.Failure? && answer.error.Unexpected? ==>
              r == Failure(OcrError("Unexpected error in OCR processing: " + answer.error.message, None, None)))
    {
      match SelectProvider(name)
      case None => Failure(OcrError("No OCR providers are available", None, None))
      case Some(provider) =>
        match ValidateImage(image, preprocess)
        case Failure(e) => Failure(e)
        case Success(data) =>
          match extract(provider, data, hints)
          case Success(result) => Success(result)
          case Failure(Ocr(e)) => Failure(e)
          case Failure(Unexpected(m)) => Failure(OcrError("Unexpected error in OCR processing: " + m, None, None))
    }

    /** `get_available_providers` */
    function AvailableProviders(): (r: seq<string>)
      reads this
      ensures forall p :: p in r <==> p in providers
    {
      providers
    }

    /** `is_provider_available`: registered, and reporting itself available. */
    predicate IsProviderAvailable(name: string, available: string -> bool)
      reads this
    {
      name in providers && available(name)
    }
  }

  /** A service whose Vision provider could not be set up refuses every image. */
  lemma NoProviderRefusesAll(s: Service, image: seq<bv8>, name: Option<string>, hints: Option<seq<string>>,
                             preprocess: seq<bv8> -> Result<seq<bv8>, string>,
                             extract: (string, seq<bv8>, Option<seq<string>>) -> Result<OcrResult, ProviderFailure>)
    requires s.providers == []
    ensures s.ExtractTextFromImage(image, name, hints, preprocess, extract).Failure?
    ensures !s.IsProviderAvailable(VisionProvider, _ => true)
  {
  }

  /** With the Vision provider registered, every request goes to it, whatever name is
      asked for; an unregistered name is not available. */
  lemma VisionServesEveryRequest(s: Service, name: Option<string>, other: string)
    requires s.providers == [VisionProvider] && other != VisionProvider
    ensures s.SelectProvider(name) == Some(VisionProvider)
    ensures forall available: string -> bool :: !s.IsProviderAvailable(other, available)
  {
  }

  /** A provider's answer as the service sees it: its OCRError as an OCRError. */
  function AsProvider(r: Result<OcrResult, OcrError>): Result<OcrResult, ProviderFailure> {
    match r
    case Success(v) => Success(v)
    case Failure(e) => Failure(Ocr(e))
  }

  /** With the Vision provider registered, the service answers for a valid image exactly
      what Vision answers for the checked image: Vision raises only OCRError, so the
      service's "Unexpected error in OCR processing" wrapper is never reached. */
  lemma ServiceIsVision(s: Service, image: seq<bv8>, name: Option<string>, hints: Option<seq<string>>,
                        preprocess: seq<bv8> -> Result<seq<bv8>, string>,
                        call: VisionRequest -> Result<VisionResponse, CallFailure>)
    requires s.providers == [VisionProvider]
    requires ValidateImage(image, preprocess).Success?
    ensures s.ExtractTextFromImage(image, name, hints, preprocess,
                                   (p, d, h) => AsProvider(VisionExtraction(d, h, call)))
            == VisionExtraction(ValidateImage(image, preprocess).value, hints, call)
  {
  }
}
