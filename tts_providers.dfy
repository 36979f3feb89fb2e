/**
 * The three providers that share one synthesis shape: MiniMax
 * (backend/app/providers/tts/minimax.py), ElevenLabs
 * (backend/app/providers/tts/elevenlabs.py) and Google Cloud TTS
 * (backend/app/providers/tts/google.py). Each checks its configuration and the text,
 * falls back to its default voice, calls its API (an outcome given as a parameter),
 * splits the text into sentences, estimates the duration and lays the sentences out
 * in proportion to their length. They differ in their voices, limits, reading speeds,
 * confidences and request payloads.
 */
module TtsProviders {
  import opened Wrappers
  import opened Strings
  import opened TtsBase
  import opened TtsTimeline

  datatype Provider = MiniMax | ElevenLabs | Google

  /** The name the service registers the provider under. */
  function Name(p: Provider): string {
    match p
    case MiniMax => "minimax"
    case ElevenLabs => "elevenlabs"
    case Google => "google"
  }

  // ---------------------------------------------------------------------------
  // Voices

  /** The voice dictionary: keys callers pass as `voice_id`, and the voices they name. */
  function Voices(p: Provider): map<string, VoiceInfo> {
    match p
    case MiniMax => map[
      "female_1" := VoiceInfo("female_1", "あいり（女性）", "ja-JP", "female", Some("優しく自然な女性の声"), Some(24000)),
      "male_1" := VoiceInfo("male_1", "たくみ（男性）", "ja-JP", "male", Some("落ち着いた男性の声"), Some(24000)),
      "female_2" := VoiceInfo("female_2", "ゆい（女性・高めの声）", "ja-JP", "female", Some("明るく高めの女性の声"), Some(24000))]
    case ElevenLabs => map[
      "JapaneseMan1" := VoiceInfo("V3XiX7JWJpn959SS60pv", "日本人男性1", "ja-JP", "male", Some("自然な日本人男性の声"), Some(22050)),
      "JapaneseMan2" := VoiceInfo("3JDquces8E8bkmvbh6Bc", "日本人男性2", "ja-JP", "male", Some("落ち着いた日本人男性の声"), Some(22050)),
      "JapaneseMan3" := VoiceInfo("MlgbiBnm4o8N3DaDzblH", "日本人男性3", "ja-JP", "male", Some("明瞭な日本人男性の声"), Some(22050)),
      "JapaneseMan4" := VoiceInfo("bqpOyYNUu11tjjvRUbKn", "日本人男性4", "ja-JP", "male", Some("若々しい日本人男性の声"), Some(22050)),
      "JapaneseMan5" := VoiceInfo("GxxMAMfQkDlnqjpzjLHH", "日本人男性5", "ja-JP", "male", Some("深みのある日本人男性の声"), Some(22050)),
      "JapaneseWoman1" := VoiceInfo("8EkOjt4xTPGMclNlh1pk", "日本人女性1", "ja-JP", "female", Some("自然な日本人女性の声"), Some(22050)),
      "JapaneseWoman2" := VoiceInfo("RBnMinrYKeccY3vaUxlZ", "日本人女性2", "ja-JP", "female", Some("明るい日本人女性の声"), Some(22050))]
    case Google => map[
      "ja-JP-Neural2-B" := VoiceInfo("ja-JP-Neural2-B", "Neural2-B（女性）", "ja-JP", "female", Some("自然で流暢な女性の声（Neural2）"), Some(24000)),
      "ja-JP-Neural2-C" := VoiceInfo("ja-JP-Neural2-C", "Neural2-C（男性）", "ja-JP", "male", Some("落ち着いた男性の声（Neural2）"), Some(24000)),
      "ja-JP-Wavenet-A" := VoiceInfo("ja-JP-Wavenet-A", "Wavenet-A（女性）", "ja-JP", "female", Some("高品質な女性の声（Wavenet）"), Some(22050)),
      "ja-JP-Wavenet-C" := VoiceInfo("ja-JP-Wavenet-C", "Wavenet-C（男性）", "ja-JP", "male", Some("高品質な男性の声（Wavenet）"), Some(22050))]
  }

  /** The dictionary's insertion order. */
  function VoiceOrder(p: Provider): seq<string> {
    match p
    case MiniMax => ["female_1", "male_1", "female_2"]
    case ElevenLabs => ["JapaneseMan1", "JapaneseMan2", "JapaneseMan3", "JapaneseMan4", "JapaneseMan5", "JapaneseWoman1", "JapaneseWoman2"]
    case Google => ["ja-JP-Neural2-B", "ja-JP-Neural2-C", "ja-JP-Wavenet-A", "ja-JP-Wavenet-C"]
  }

  /** The voice an unknown `voice_id` is replaced by. */
  function DefaultVoice(p: Provider): string {
    match p
    case MiniMax => "female_1"
    case ElevenLabs => "JapaneseWoman1"
    case Google => "ja-JP-Neural2-B"
  }

  /** The order lists the keys of the dictionary, and the default is one of them. */
  lemma CatalogueShape(p: Provider)
    ensures forall k :: k in VoiceOrder(p) <==> k in Voices(p)
    ensures DefaultVoice(p) in Voices(p)
  {
    match p
    case MiniMax =>
    case ElevenLabs =>
    case Google =>
  }

  /** `voice_id` if the provider knows it, else the default, without an error. */
  function ChooseVoice(p: Provider, voiceId: string): (key: string)
    ensures key in Voices(p)
    ensures voiceId in Voices(p) ==> key == voiceId
    ensures voiceId !in Voices(p) ==> key == DefaultVoice(p)
  {
    if voiceId in Voices(p) then voiceId else DefaultVoice(p)
  }

  /** The voice id the API receives: ElevenLabs sends its own id for the key, the others
      the key itself. */
  function ApiVoiceId(p: Provider, key: string): string
    requires key in Voices(p)
  {
    if p == ElevenLabs then Voices(p)[key].voiceId else key
  }

  /** ElevenLabs never sends a key: every one differs from the id it maps to. */
  lemma ElevenLabsSendsMappedId(voiceId: string)
    ensures var key := ChooseVoice(ElevenLabs, voiceId);
      ApiVoiceId(ElevenLabs, key) == Voices(ElevenLabs)[key].voiceId && ApiVoiceId(ElevenLabs, key) != key
  {
  }

  predicate MatchesLanguage(v: VoiceInfo, lang: Option<string>) {
    lang.None? || v.languageCode == lang.value
  }

  /** The voices among `keys` whose language matches, in order. */
  function VoicesFor(p: Provider, keys: seq<string>, lang: Option<string>): seq<VoiceInfo>
    requires forall k :: k in keys ==> k in Voices(p)
  {
    if keys == [] then []
    else
      var init := keys[..|keys| - 1];
      var v := Voices(p)[keys[|keys| - 1]];
      VoicesFor(p, init, lang) + (if MatchesLanguage(v, lang) then [v] else [])
  }

  /** `get_available_voices`: the provider's voices, in dictionary order, whose language is
      the one asked for (all of them when none is asked for). */
  method AvailableVoices(p: Provider, lang: Option<string>) returns (r: seq<VoiceInfo>)
    ensures forall k :: k in VoiceOrder(p) ==> k in Voices(p)
    ensures r == VoicesFor(p, VoiceOrder(p), lang)
  {
    CatalogueShape(p);
    var order := VoiceOrder(p);
    r := [];
    var i := 0;
    while i < |order|
      invariant 0 <= i <= |order|
      invariant r == VoicesFor(p, order[..i], lang)
    {
      var v := Voices(p)[order[i]];
      VoicesForStep(p, order, i, lang);
      if MatchesLanguage(v, lang) {
        r := r + [v];
      }
      i := i + 1;
    }
    assert order[..i] == order;
  }

  /** Listing one more key appends its voice when the language matches. */
  lemma VoicesForStep(p: Provider, keys: seq<string>, i: nat, lang: Option<string>)
    requires i < |keys| && forall k :: k in keys ==> k in Voices(p)
    ensures VoicesFor(p, keys[..i + 1], lang)
      == VoicesFor(p, keys[..i], lang) + (if MatchesLanguage(Voices(p)[keys[i]], lang) then [Voices(p)[keys[i]]] else [])
  {
    assert keys[..i + 1][..i] == keys[..i];
  }

  /** Every voice of every dictionary is Japanese. */
  lemma JapaneseVoice(p: Provider, k: string)
    requires k in Voices(p)
    ensures Voices(p)[k].languageCode == "ja-JP"
  {
  }

  /** A voice is listed iff it is in the dictionary and its language matches. */
  lemma {:induction false} VoicesForMembers(p: Provider, keys: seq<string>, lang: Option<string>)
    requires forall k :: k in keys ==> k in Voices(p)
    ensures forall v :: v in VoicesFor(p, keys, lang) <==>
      (exists k :: k in keys && Voices(p)[k] == v) && MatchesLanguage(v, lang)
    decreases |keys|
  {
    if keys != [] {
      var init := keys[..|keys| - 1];
      assert forall k :: k in keys <==> k in init || k == keys[|keys| - 1] by {
        assert keys == init + [keys[|keys| - 1]];
      }
      VoicesForMembers(p, init, lang);
    }
  }

  /** Every voice is Japanese: asking for "ja-JP" lists them all, any other language
      none. */
  lemma {:induction false} OnlyJapaneseVoices(p: Provider, keys: seq<string>, lang: string)
    requires forall k :: k in keys ==> k in Voices(p)
    ensures VoicesFor(p, keys, Some(lang)) == if lang == "ja-JP" then VoicesFor(p, keys, None) else []
    decreases |keys|
  {
    if keys != [] {
      OnlyJapaneseVoices(p, keys[..|keys| - 1], lang);
      JapaneseVoice(p, keys[|keys| - 1]);
    }
  }

  // ---------------------------------------------------------------------------
  // Text checks and estimates

  predicate IsMiniMaxForbidden(c: char) {
    c == '<' || c == '>' || c == '{' || c == '}'
  }

  /** The provider's `validate_text`: the base check, a length limit, and for MiniMax
      none of `< > { }`. */
  function Validate(p: Provider, text: string): (ok: bool)
    ensures ok ==> ValidateText(text)
    ensures p == MiniMax ==>
      (ok <==> ValidateText(text) && |text| <= 3000 && forall i :: 0 <= i < |text| ==> !IsMiniMaxForbidden(text[i]))
    ensures p == ElevenLabs ==> (ok <==> ValidateText(text) && |text| <= 2500)
    ensures p == Google ==> (ok <==> ValidateText(text))
  {
    if !ValidateText(text) then false
    else match p
      case MiniMax => |text| <= 3000 && !(exists i :: 0 <= i < |text| && IsMiniMaxForbidden(text[i]))
      case ElevenLabs => |text| <= 2500
      case Google => |text| <= 5000
  }

  predicate HasJapanese(text: string) {
    exists i :: 0 <= i < |text| && IsJapaneseChar(text[i])
  }

  /** Characters read per minute: 300 for MiniMax, 280 for Google, and for ElevenLabs 250
      when the text holds a Japanese character, else 900. */
  function PerMinute(p: Provider, text: string): nat {
    match p
    case MiniMax => 300
    case ElevenLabs => if HasJapanese(text) then 250 else 900
    case Google => 280
  }

  /** The longest estimate, in seconds. */
  function Longest(p: Provider): real {
    match p
    case MiniMax => 1200.0
    case ElevenLabs => 900.0
    case Google => 1800.0
  }

  /** The provider's `estimate_duration`. */
  function Estimate(p: Provider, text: string, rate: real): (r: Result<real, Error>)
    ensures r.Failure? <==> rate == 0.0
    ensures r.Success? ==> 1.0 <= r.value <= Longest(p)
  {
    ClampedEstimate(|text|, PerMinute(p, text), rate, Longest(p))
  }

  /** The confidence each provider attaches to its timestamps. */
  function Confidence(p: Provider): real {
    match p
    case MiniMax => 0.95
    case ElevenLabs => 0.92
    case Google => 0.98
  }

  // ---------------------------------------------------------------------------
  // Synthesis

  /** The error raised when the provider is not configured: MiniMax and ElevenLabs need an
      API key, Google a client. */
  function NotConfigured(p: Provider): Error {
    match p
    case MiniMax => ValueError("MiniMax API key not configured")
    case ElevenLabs => ValueError("ElevenLabs API key not configured")
    case Google => ValueError("Google Cloud TTS client not available")
  }

  /** The prefix of the RuntimeError every later failure is wrapped in. */
  function FailurePrefix(p: Provider): string {
    match p
    case MiniMax => "Failed to synthesize with MiniMax: "
    case ElevenLabs => "Failed to synthesize with ElevenLabs: "
    case Google => "Failed to synthesize with Google TTS: "
  }

  /** `text[:50]` */
  function Head(text: string, n: nat): string {
    if |text| <= n then text else text[..n]
  }

  /** The metadata of a result; `now` is `time.time()`. */
  function Metadata(p: Provider, req: Request, key: string, now: real): map<string, Meta>
    requires key in Voices(p)
  {
    var common := map["provider" := MStr(Name(p)), "voice_id" := MStr(key), "speaking_rate" := MNum(req.rate),
      "volume_gain_db" := MNum(req.volume), "api_version" := MStr("v1"), "generated_at" := MNum(now)];
    match p
    case MiniMax => common["pitch" := MNum(req.pitch)]
    case ElevenLabs => common["elevenlabs_voice_id" := MStr(ApiVoiceId(p, key))]
    case Google => common["pitch" := MNum(req.pitch)]["language_code" := MStr(req.languageCode)]
  }

  /** `synthesize`. `configured` is whether the key (or client) is set and `api` the outcome
      of the API call: its audio, or the message of the exception it raised. */
  function Synthesize(p: Provider, configured: bool, req: Request, api: Result<seq<bv8>, string>, now: real)
    : (r: Result<SynthesisResult, Error>)
  {
    if !configured then Failure(NotConfigured(p))
    else if !Validate(p, req.text) then Failure(ValueError("Invalid text for synthesis: " + Head(req.text, 50) + "..."))
    else
      var key := ChooseVoice(p, req.voiceId);
      match api
      case Failure(m) => Failure(RuntimeError(FailurePrefix(p) + m))
      case Success(audio) =>
        var sentences := SplitSentences(req.text);
        match Estimate(p, req.text, req.rate)
        case Failure(e) => Failure(RuntimeError(FailurePrefix(p) + Message(e)))
        case Success(duration) =>
          match Proportional(sentences, duration, Confidence(p))
          case Failure(e) => Failure(RuntimeError(FailurePrefix(p) + Message(e)))
          case Success(ts) =>
            Success(NewSynthesisResult(audio, req.format, req.sampleRate, duration, req.text, Voices(p)[key],
              Some(ts), Some(Metadata(p, req, key, now))))
  }

  /** A missing configuration or an invalid text raises ValueError before the API is
      called; everything after that surfaces as a RuntimeError carrying the provider's
      prefix; and the call succeeds exactly when the API answered and the rate is not 0. */
  lemma SynthesizeOutcome(p: Provider, configured: bool, req: Request, api: Result<seq<bv8>, string>, now: real)
    ensures var r := Synthesize(p, configured, req, api, now);
      && (r.Failure? && r.error.ValueError? <==> !configured || !Validate(p, req.text))
      && (r.Failure? && !r.error.ValueError? ==> r.error.RuntimeError? && StartsWith(r.error.msg, FailurePrefix(p)))
      && (r.Success? <==> configured && Validate(p, req.text) && api.Success? && req.rate != 0.0)
  {
    if configured && Validate(p, req.text) && api.Success? && req.rate != 0.0 {
      var d := Estimate(p, req.text, req.rate).value;
      SplitSentencesNeverDivideByZero(req.text, d, Confidence(p));
    }
  }

  /** A successful result carries the API's audio, the requested text, format and sample
      rate, the chosen voice of the provider's dictionary, an estimate within the
      provider's bounds, and the splitter's sentences laid end to end over exactly that
      estimate. */
  lemma SynthesizeResult(p: Provider, configured: bool, req: Request, api: Result<seq<bv8>, string>, now: real)
    requires Synthesize(p, configured, req, api, now).Success?
    ensures var r := Synthesize(p, configured, req, api, now).value;
      var key := ChooseVoice(p, req.voiceId);
      && r.audio == api.value && r.text == req.text && r.format == req.format && r.sampleRate == req.sampleRate
      && r.voice == Voices(p)[key]
      && 1.0 <= r.duration <= Longest(p)
      && Proportional(SplitSentences(req.text), r.duration, Confidence(p)).Success?
      && r.sentences == Proportional(SplitSentences(req.text), r.duration, Confidence(p)).value
      && "provider" in r.metadata && r.metadata["provider"] == MStr(Name(p))
      && "voice_id" in r.metadata && r.metadata["voice_id"] == MStr(key)
  {
    SynthesizeBuilds(p, configured, req, api, now);
    MetadataNames(p, req, ChooseVoice(p, req.voiceId), now);
  }

  /** A successful synthesis is the result built from the API's audio, the estimate and
      the chosen voice. */
  lemma SynthesizeBuilds(p: Provider, configured: bool, req: Request, api: Result<seq<bv8>, string>, now: real)
    requires Synthesize(p, configured, req, api, now).Success?
    ensures configured && api.Success? && Estimate(p, req.text, req.rate).Success?
    ensures var duration := Estimate(p, req.text, req.rate).value;
      var key := ChooseVoice(p, req.voiceId);
      && Proportional(SplitSentences(req.text), duration, Confidence(p)).Success?
      && Synthesize(p, configured, req, api, now)
         == Success(NewSynthesisResult(api.value, req.format, req.sampleRate, duration, req.text, Voices(p)[key],
              Some(Proportional(SplitSentences(req.text), duration, Confidence(p)).value), Some(Metadata(p, req, key, now))))
  {
  }

  /** The metadata names the provider and the chosen voice. */
  lemma MetadataNames(p: Provider, req: Request, key: string, now: real)
    requires key in Voices(p)
    ensures var m := Metadata(p, req, key, now);
      "provider" in m && m["provider"] == MStr(Name(p)) && "voice_id" in m && m["voice_id"] == MStr(key)
  {
  }

  /** The sentence timestamps of a successful result tile [0, duration]. */
  lemma SynthesizeTimeline(p: Provider, configured: bool, req: Request, api: Result<seq<bv8>, string>, now: real)
    requires Synthesize(p, configured, req, api, now).Success?
    requires SplitSentences(req.text) != []
    ensures var r := Synthesize(p, configured, req, api, now).value;
      && |r.sentences| == |SplitSentences(req.text)|
      && r.sentences[0].start == 0.0
      && r.sentences[|r.sentences| - 1].end == r.duration
      && (forall i :: 0 <= i < |r.sentences| - 1 ==> r.sentences[i].end == r.sentences[i + 1].start)
      && (forall i :: 0 <= i < |r.sentences| ==> r.sentences[i].start <= r.sentences[i].end)
  {
    var r := Synthesize(p, configured, req, api, now).value;
    var ss := SplitSentences(req.text);
    SplitSentencesNeverDivideByZero(req.text, r.duration, Confidence(p));
    SynthesizeResult(p, configured, req, api, now);
    ProportionalTiles(ss, r.duration, Confidence(p));
  }

  /** A known voice is used as asked; an unknown one silently becomes the default. */
  lemma UnknownVoiceFallsBack(p: Provider, configured: bool, req: Request, api: Result<seq<bv8>, string>, now: real)
    requires Synthesize(p, configured, req, api, now).Success?
    requires req.voiceId !in Voices(p)
    ensures Synthesize(p, configured, req, api, now).value.voice == Voices(p)[DefaultVoice(p)]
  {
  }

  // ---------------------------------------------------------------------------
  // Request payloads

  /** Python's `int(x)`: truncation toward zero. */
  function Truncate(x: real): int {
    if x >= 0.0 then x.Floor else -((-x).Floor)
  }

  lemma TruncateBounds(x: real)
    ensures x >= 0.0 ==> 0.0 <= x - Truncate(x) as real < 1.0
    ensures x < 0.0 ==> 0.0 <= Truncate(x) as real - x < 1.0
  {
  }

  datatype MiniMaxPayload = MiniMaxPayload(
    model: string, text: string, voiceId: string, speed: real, vol: real, pitch: int,
    sampleRate: int, bitrate: int, format: string)

  /** The body MiniMax receives. */
  function MiniMaxRequestBody(req: Request, key: string): (b: MiniMaxPayload)
    ensures 0.5 <= b.speed <= 2.0 && 0.5 <= b.vol <= 2.0 && -12 <= b.pitch <= 12
    ensures b.format == Lower(req.format) && b.model == "speech-01" && b.bitrate == 128000
  {
    var pitch := Truncate(req.pitch);
    MiniMaxPayload("speech-01", req.text, key, Clamp(req.rate, 0.5, 2.0), Clamp(req.volume + 1.0, 0.5, 2.0),
      if 12 < pitch then 12 else if pitch < -12 then -12 else pitch, req.sampleRate, 128000, Lower(req.format))
  }

  /** Values inside the ranges pass through: the speed as given, the volume shifted by one,
      the pitch truncated to an integer. */
  lemma MiniMaxPassesInRange(req: Request, key: string)
    requires 0.5 <= req.rate <= 2.0 && -0.5 <= req.volume <= 1.0 && -12.0 <= req.pitch <= 12.0
    ensures var b := MiniMaxRequestBody(req, key);
      b.speed == req.rate && b.vol == req.volume + 1.0 && b.pitch == Truncate(req.pitch)
  {
    TruncateBounds(req.pitch);
  }

  datatype VoiceSettings = VoiceSettings(stability: real, similarityBoost: real, style: real, speakerBoost: bool)

  /** ElevenLabs' `voice_settings`, built as the source does: the defaults, then the speed
      rule, then the volume rule. */
  method ElevenLabsVoiceSettings(speed: real, volume: real) returns (s: VoiceSettings)
    ensures s.stability == (if speed > 1.0 then 0.7 else if speed < 1.0 then 0.3 else 0.5)
    ensures volume == 0.0 ==> s.similarityBoost == 0.8
    ensures volume != 0.0 ==> s.similarityBoost == Clamp((volume + 20.0) / 40.0, 0.0, 1.0)
    ensures 0.0 <= s.similarityBoost <= 1.0 && 0.2 <= s.stability <= 0.8
    ensures s.style == 0.2 && s.speakerBoost
  {
    s := VoiceSettings(0.5, 0.8, 0.2, true);
    if speed != 1.0 {
      if speed > 1.0 {
        s := s.(stability := if 0.8 < s.stability + 0.2 then 0.8 else s.stability + 0.2);
      } else {
        s := s.(stability := if s.stability - 0.2 < 0.2 then 0.2 else s.stability - 0.2);
      }
    }
    if volume != 0.0 {
      s := s.(similarityBoost := Clamp((volume + 20.0) / 40.0, 0.0, 1.0));
    }
  }

  /** The similarity boost rises with the volume across [-20, 20] dB. */
  lemma SimilarityFollowsVolume(v: real, w: real)
    requires -20.0 <= v <= w <= 20.0
    ensures Clamp((v + 20.0) / 40.0, 0.0, 1.0) <= Clamp((w + 20.0) / 40.0, 0.0, 1.0)
    ensures Clamp((v + 20.0) / 40.0, 0.0, 1.0) == (v + 20.0) / 40.0
  {
  }

  /** ElevenLabs' `output_format` and `Accept` header follow the same test. */
  function ElevenLabsOutput(format: string): (r: (string, string))
    ensures Lower(format) == "mp3" <==> r.0 == "mp3_22050_32"
    ensures Lower(format) == "mp3" <==> r.1 == "audio/mpeg"
    ensures r.0 == "mp3_22050_32" || r.0 == "pcm_22050"
  {
    if Lower(format) == "mp3" then ("mp3_22050_32", "audio/mpeg") else ("pcm_22050", "audio/wav")
  }

  datatype Encoding = LINEAR16 | MP3

  datatype AudioConfig = AudioConfig(encoding: Encoding, sampleRate: int, rate: real, pitch: real, volume: real)

  /** Google's encoding: wav is LINEAR16, mp3 is MP3, anything else LINEAR16. */
  function GoogleEncoding(format: string): (e: Encoding)
    ensures e == MP3 <==> Lower(format) == "mp3"
  {
    if Lower(format) == "wav" then LINEAR16
    else if Lower(format) == "mp3" then MP3
    else LINEAR16
  }

  /** Google's `AudioConfig`: rate in [0.25, 4], pitch in [-20, 20], gain in [-96, 16]. */
  function GoogleAudioConfig(req: Request): (c: AudioConfig)
    ensures 0.25 <= c.rate <= 4.0 && -20.0 <= c.pitch <= 20.0 && -96.0 <= c.volume <= 16.0
    ensures c.encoding == GoogleEncoding(req.format) && c.sampleRate == req.sampleRate
    ensures 0.25 <= req.rate <= 4.0 ==> c.rate == req.rate
    ensures -20.0 <= req.pitch <= 20.0 ==> c.pitch == req.pitch
    ensures -96.0 <= req.volume <= 16.0 ==> c.volume == req.volume
  {
    AudioConfig(GoogleEncoding(req.format), req.sampleRate, Clamp(req.rate, 0.25, 4.0),
      Clamp(req.pitch, -20.0, 20.0), Clamp(req.volume, -96.0, 16.0))
  }
}
