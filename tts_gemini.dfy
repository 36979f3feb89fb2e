/**
 * The Gemini provider (backend/app/providers/tts/gemini.py). Its request payload,
 * its error checks and its equal-share timestamps are modelled as written. Its result
 * and its voice list are built with keyword names that `SynthesisResult` and `VoiceInfo`
 * do not accept, so both calls raise TypeError; the corrected versions use the accepted
 * names.
 */
module TtsGemini {
  import opened Wrappers
  import opened Strings
  import opened TtsBase
  import opened TtsTimeline
  import opened TtsProviders
  import Seqs

  /** The `audioConfig` of the request. */
  function GeminiAudioConfig(req: Request): (c: AudioConfig)
    ensures c.encoding == MP3 <==> Lower(req.format) == "mp3"
    ensures 0.25 <= c.rate <= 4.0 && -20.0 <= c.pitch <= 20.0 && -96.0 <= c.volume <= 16.0
    ensures c.sampleRate == req.sampleRate
  {
    AudioConfig(if Lower(req.format) == "mp3" then MP3 else LINEAR16, req.sampleRate,
      Clamp(req.rate, 0.25, 4.0), Clamp(req.pitch, -20.0, 20.0), Clamp(req.volume, -96.0, 16.0))
  }

  /** Gemini's two-way encoding test and Google's three-way one agree, and so do the
      clamps. */
  lemma SameConfigAsGoogle(req: Request)
    ensures GeminiAudioConfig(req) == GoogleAudioConfig(req)
  {
  }

  /** The keywords `synthesize` passes to `SynthesisResult`. */
  const ResultKeywords: set<string> :=
    {"audio_data", "audio_format", "sample_rate", "duration", "voice_id", "language_code", "sentences", "metadata"}

  /** The keywords `get_available_voices` passes to `VoiceInfo`. */
  const VoiceKeywords: set<string> := {"id", "name", "language_code", "gender", "provider"}

  /** The keywords the corrected calls pass: every name the constructor accepts, for the
      same values (`sample_rate_hertz`, `duration_seconds`, `text`, and a `voice_info` in
      place of `voice_id` and `language_code`). */
  const CorrectedResultKeywords: set<string> := SynthesisResultSignature.required + SynthesisResultSignature.optional

  /** `voice_id` in place of `id`, and no `provider`. */
  const CorrectedVoiceKeywords: set<string> := VoiceInfoSignature.required

  /** `synthesize` up to the result construction: a missing key raises RuntimeError
      outside the `try`; inside it, whatever the request or the decoding raised is
      re-raised as it is (`api`), and an empty decoded audio raises RuntimeError. On
      success, the audio and the timestamps laid over the processing time. */
  function Prepared(configured: bool, req: Request, api: Result<seq<bv8>, Error>, processingTime: real)
    : (r: Result<(seq<bv8>, seq<SentenceTimestamp>), Error>)
    ensures r.Success? <==> configured && api.Success? && api.value != []
    ensures r.Success? ==> r.value.0 == api.value && r.value.1 == EqualShares(req.text, processingTime)
    ensures !configured ==> r == Failure(RuntimeError("Gemini TTS API key not configured"))
  {
    if !configured then Failure(RuntimeError("Gemini TTS API key not configured"))
    else match api
      case Failure(e) => Failure(e)
      case Success(audio) =>
        if audio == [] then Failure(RuntimeError("No audio content received from Gemini TTS"))
        else Success((audio, EqualShares(req.text, processingTime)))
  }

  /** `len(audio_content) / (sample_rate_hertz * 2)`, evaluated before the call. */
  function RoughDuration(audio: seq<bv8>, sampleRate: int): Result<real, Error> {
    if sampleRate == 0 then Failure(ZeroDivision(IntDivisionByZero))
    else Success(|audio| as real / (sampleRate * 2) as real)
  }

  function GeminiMetadata(req: Request, processingTime: real): map<string, Meta> {
    map["provider" := MStr("gemini"), "processing_time" := MNum(processingTime),
        "voice_name" := MStr(req.voiceId), "text_length" := MNum(|req.text| as real)]
  }

  /** `synthesize` when the result is built with the keywords `keywords`: the duration
      is evaluated before the constructor checks its keywords. */
  function SynthesizeWith(keywords: set<string>, configured: bool, req: Request, api: Result<seq<bv8>, Error>,
                          processingTime: real): (r: Result<SynthesisResult, Error>)
  {
    var (audio, ts) :- Prepared(configured, req, api, processingTime);
    var duration :- RoughDuration(audio, req.sampleRate);
    match Call(SynthesisResultSignature, keywords)
    case Some(e) => Failure(e)
    case None =>
      Success(NewSynthesisResult(audio, req.format, req.sampleRate, duration, req.text, CorrectedVoice(req),
        Some(ts), Some(GeminiMetadata(req, processingTime))))
  }

  /** `synthesize` as written. */
  function Synthesize(configured: bool, req: Request, api: Result<seq<bv8>, Error>, processingTime: real)
    : Result<SynthesisResult, Error>
  {
    SynthesizeWith(ResultKeywords, configured, req, api, processingTime)
  }

  /** As written, no call ever returns a result: once the audio arrives, the constructor
      rejects the keywords. */
  lemma AsWrittenNeverSynthesizes(configured: bool, req: Request, api: Result<seq<bv8>, Error>, processingTime: real)
    ensures Synthesize(configured, req, api, processingTime).Failure?
    ensures configured && api.Success? && api.value != [] && req.sampleRate != 0 ==>
      Synthesize(configured, req, api, processingTime).error.TypeError?
  {
    assert "sample_rate" in ResultKeywords - (SynthesisResultSignature.required + SynthesisResultSignature.optional);
  }

  /** The voice the corrected result names: Gemini's own entry for the id, or a neutral
      voice named after it. */
  function CorrectedVoice(req: Request): VoiceInfo {
    var listed := CorrectedVoiceList();
    if exists k :: 0 <= k < |listed| && listed[k].voiceId == req.voiceId then
      if req.voiceId == "ja-JP-Standard-A" then listed[0]
      else if req.voiceId == "ja-JP-Standard-B" then listed[1]
      else if req.voiceId == "ja-JP-Standard-C" then listed[2]
      else listed[3]
    else VoiceInfo(req.voiceId, req.voiceId, req.languageCode, "neutral", None, None)
  }

  /** `synthesize` with the keywords `SynthesisResult` accepts. */
  function SynthesizeCorrected(configured: bool, req: Request, api: Result<seq<bv8>, Error>, processingTime: real)
    : Result<SynthesisResult, Error>
  {
    SynthesizeWith(CorrectedResultKeywords, configured, req, api, processingTime)
  }

  /** Corrected, a non-empty answer with a non-zero sample rate yields a result holding
      that audio, the text, a duration of two bytes per sample, and sentence timestamps
      that tile the processing time. */
  lemma CorrectedSynthesizes(configured: bool, req: Request, api: Result<seq<bv8>, Error>, processingTime: real)
    requires configured && api.Success? && api.value != [] && req.sampleRate != 0
    ensures var r := SynthesizeCorrected(configured, req, api, processingTime);
      && r.Success?
      && r.value.audio == api.value && r.value.text == req.text
      && r.value.duration == |api.value| as real / (req.sampleRate * 2) as real
      && r.value.sentences == EqualShares(req.text, processingTime)
      && r.value.metadata == GeminiMetadata(req, processingTime)
  {
    assert Call(SynthesisResultSignature, CorrectedResultKeywords).None?;
  }

  /** Corrected or not, the failures before the construction are the same. */
  lemma CorrectedFailsAlike(configured: bool, req: Request, api: Result<seq<bv8>, Error>, processingTime: real)
    requires Prepared(configured, req, api, processingTime).Failure?
    ensures SynthesizeCorrected(configured, req, api, processingTime) == Synthesize(configured, req, api, processingTime)
  {
  }

  /** The four standard voices with the fields the corrected `VoiceInfo` calls pass. */
  function CorrectedVoiceList(): seq<VoiceInfo> {
    [VoiceInfo("ja-JP-Standard-A", "Japanese Standard A (Female)", "ja-JP", "female", None, None),
     VoiceInfo("ja-JP-Standard-B", "Japanese Standard B (Female)", "ja-JP", "female", None, None),
     VoiceInfo("ja-JP-Standard-C", "Japanese Standard C (Male)", "ja-JP", "male", None, None),
     VoiceInfo("ja-JP-Standard-D", "Japanese Standard D (Male)", "ja-JP", "male", None, None)]
  }

  /** `get_available_voices` when each `VoiceInfo` is built with the keywords
      `keywords`; the filter applies only to a non-empty language (`if language_code:`). */
  function VoicesWith(keywords: set<string>, lang: Option<string>): Result<seq<VoiceInfo>, Error> {
    match Call(VoiceInfoSignature, keywords)
    case Some(e) => Failure(e)
    case None =>
      var vs := CorrectedVoiceList();
      if lang.Some? && lang.value != "" then Success(Filter(vs, lang.value)) else Success(vs)
  }

  /** `[v for v in voices if v.language_code == language_code]` */
  function Filter(vs: seq<VoiceInfo>, lang: string): (r: seq<VoiceInfo>)
    ensures forall v :: v in r <==> v in vs && v.languageCode == lang
  {
    if vs == [] then []
    else Filter(vs[..|vs| - 1], lang) + (if vs[|vs| - 1].languageCode == lang then [vs[|vs| - 1]] else [])
  }

  /** `get_available_voices` as written. */
  function AvailableVoices(lang: Option<string>): Result<seq<VoiceInfo>, Error> {
    VoicesWith(VoiceKeywords, lang)
  }

  lemma AsWrittenListsNoVoices(lang: Option<string>)
    ensures AvailableVoices(lang).Failure? && AvailableVoices(lang).error.TypeError?
  {
    assert "id" in VoiceKeywords - (VoiceInfoSignature.required + VoiceInfoSignature.optional);
  }

  /** `get_available_voices` with the accepted keywords. */
  function AvailableVoicesCorrected(lang: Option<string>): Result<seq<VoiceInfo>, Error> {
    VoicesWith(CorrectedVoiceKeywords, lang)
  }

  /** Corrected, the four voices are listed for no language, for "" and for "ja-JP", and
      none for any other language. */
  lemma CorrectedListsVoices(lang: Option<string>)
    ensures AvailableVoicesCorrected(lang).Success?
    ensures lang.None? || lang.value == "" || lang.value == "ja-JP" ==> AvailableVoicesCorrected(lang).value == CorrectedVoiceList()
    ensures lang.Some? && lang.value != "" && lang.value != "ja-JP" ==> AvailableVoicesCorrected(lang).value == []
  {
    assert Call(VoiceInfoSignature, CorrectedVoiceKeywords).None?;
    var vs := CorrectedVoiceList();
    if lang.Some? && lang.value != "" {
      if lang.value == "ja-JP" {
        FilterAll(vs, lang.value);
      } else {
        FilterNone(vs, lang.value);
      }
    }
  }

  lemma {:induction false} FilterAll(vs: seq<VoiceInfo>, lang: string)
    requires forall k :: 0 <= k < |vs| ==> vs[k].languageCode == lang
    ensures Filter(vs, lang) == vs
  {
    if vs != [] {
      FilterAll(vs[..|vs| - 1], lang);
      Seqs.InitLast(vs);
    }
  }

  lemma {:induction false} FilterNone(vs: seq<VoiceInfo>, lang: string)
    requires forall k :: 0 <= k < |vs| ==> vs[k].languageCode != lang
    ensures Filter(vs, lang) == []
  {
    if vs != [] {
      FilterNone(vs[..|vs| - 1], lang);
    }
  }
}
