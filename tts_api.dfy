/**
 * The text-to-speech HTTP endpoints (backend/app/api/api_v1/endpoints/tts.py): request
 * constraints, the mapping of service errors to HTTP statuses, the saved-file extension
 * and URL, the streamed-audio response and its headers, and the file download with its
 * media type. The temporary directory is a map the caller supplies as `isFile`, and the
 * fresh file name is a parameter.
 */
module TtsApi {
  import opened Wrappers
  import opened Strings
  import opened TtsBase
  import TtsService
  import Seqs

  /** `TTSRequest` */
  datatype TtsRequest = TtsRequest(
    text: string, voiceId: Option<string>, languageCode: string, rate: real, pitch: real, volume: real,
    format: string, sampleRate: Option<int>, provider: Option<string>)

  /** The field constraints; a request that breaks one is refused before the handler runs. */
  predicate ValidRequest(r: TtsRequest) {
    1 <= |r.text| <= 5000 && 0.5 <= r.rate <= 2.0 && -20.0 <= r.pitch <= 20.0 && -20.0 <= r.volume <= 20.0
  }

  /** The parameters the handler passes to the service. */
  function ServiceParams(r: TtsRequest): TtsService.Params {
    TtsService.Params(r.voiceId, r.languageCode, r.rate, r.pitch, r.volume, r.format, r.sampleRate)
  }

  // ---------------------------------------------------------------------------
  // Errors

  datatype Reply =
    | Audio(response: AudioResponse)
    | Saved(body: TtsResponse, fileName: string, data: seq<bv8>)
    | HttpError(status: int, detail: string)

  const SynthesisFailedPrefix: string := "音声合成に失敗しました: "
  const UnexpectedError: string := "音声合成中に予期しないエラーが発生しました"

  /** The `except` clauses: ValueError is the caller's fault, RuntimeError a failed
      synthesis, anything else unexpected. */
  function ErrorReply(e: Error): (r: Reply)
    ensures r.HttpError?
    ensures r.status == 400 <==> e.ValueError?
    ensures e.ValueError? ==> r.detail == Message(e)
    ensures e.RuntimeError? ==> r.status == 500 && r.detail == SynthesisFailedPrefix + Message(e)
    ensures !e.ValueError? && !e.RuntimeError? ==> r.status == 500 && r.detail == UnexpectedError
  {
    match e
    case ValueError(m) => HttpError(400, m)
    case RuntimeError(m) => HttpError(500, SynthesisFailedPrefix + m)
    case _ => HttpError(500, UnexpectedError)
  }

  // ---------------------------------------------------------------------------
  // The streamed audio

  /** The response headers; `provider` is the metadata value or "unknown". */
  datatype Headers = Headers(
    disposition: string, contentLength: string, duration: real, provider: Meta, voiceId: string, language: string)

  datatype AudioResponse = AudioResponse(mediaType: string, chunks: seq<seq<bv8>>, headers: Headers)

  /** The media type and attachment name of a format: only "mp3" and "wav" (in any case)
      are recognised; anything else is sent as octet-stream under its own spelling. */
  function AudioType(format: string): (r: (string, string))
    ensures Lower(format) == "mp3" ==> r == ("audio/mpeg", "synthesis.mp3")
    ensures Lower(format) == "wav" ==> r == ("audio/wav", "synthesis.wav")
    ensures Lower(format) != "mp3" && Lower(format) != "wav" ==> r == ("application/octet-stream", "synthesis." + format)
  {
    if Lower(format) == "mp3" then ("audio/mpeg", "synthesis.mp3")
    else if Lower(format) == "wav" then ("audio/wav", "synthesis.wav")
    else ("application/octet-stream", "synthesis." + format)
  }

  /** The position of the first byte `b` in `s`. */
  function IndexOfByte(s: seq<bv8>, b: bv8): (i: nat)
    requires b in s
    ensures i < |s| && s[i] == b && b !in s[..i]
  {
    if s[0] == b then 0 else 1 + IndexOfByte(s[1..], b)
  }

  /** Iterating over `io.BytesIO(data)`: its lines, each up to and including a newline,
      then what is left. */
  function Lines(data: seq<bv8>): (r: seq<seq<bv8>>)
    decreases |data|
  {
    if data == [] then []
    else if 0x0A !in data then [data]
    else
      var i := IndexOfByte(data, 0x0A);
      [data[..i + 1]] + Lines(data[i + 1..])
  }

  function Flatten(chunks: seq<seq<bv8>>): seq<bv8> {
    if chunks == [] then [] else chunks[0] + Flatten(chunks[1..])
  }

  /** The stream carries exactly the audio: its chunks, in order, are the data; none is
      empty, and only the last may lack the closing newline. */
  lemma LinesRoundTrip(data: seq<bv8>)
    ensures Flatten(Lines(data)) == data
    ensures forall k :: 0 <= k < |Lines(data)| ==> Lines(data)[k] != []
    ensures forall k :: 0 <= k < |Lines(data)| - 1 ==> Lines(data)[k][|Lines(data)[k]| - 1] == 0x0A
  {
    LinesFlatten(data);
    forall k | 0 <= k < |Lines(data)|
      ensures Lines(data)[k] != []
      ensures k < |Lines(data)| - 1 ==> Lines(data)[k][|Lines(data)[k]| - 1] == 0x0A
    {
      LinesAt(data, k);
    }
  }

  /** Gluing the chunks back together gives the data. */
  lemma {:induction false} LinesFlatten(data: seq<bv8>)
    ensures Flatten(Lines(data)) == data
    decreases |data|
  {
    if data != [] {
      if 0x0A in data {
        var i := IndexOfByte(data, 0x0A);
        var rest := Lines(data[i + 1..]);
        LinesFlatten(data[i + 1..]);
        assert Lines(data) == [data[..i + 1]] + rest;
        assert ([data[..i + 1]] + rest)[1..] == rest;
        Seqs.SplitAt(data, i + 1);
      } else {
        assert [data][1..] == [];
        assert data + [] == data;
      }
    }
  }

  /** Chunk `k` is not empty, and ends with a newline unless it is the last. */
  lemma {:induction false} LinesAt(data: seq<bv8>, k: nat)
    requires k < |Lines(data)|
    ensures Lines(data)[k] != []
    ensures k < |Lines(data)| - 1 ==> Lines(data)[k][|Lines(data)[k]| - 1] == 0x0A
    decreases |data|
  {
    if 0x0A in data {
      var i := IndexOfByte(data, 0x0A);
      var head := data[..i + 1];
      var rest := Lines(data[i + 1..]);
      assert Lines(data) == [head] + rest;
      if k > 0 {
        LinesAt(data[i + 1..], k - 1);
        assert Lines(data)[k] == rest[k - 1];
      } else {
        assert Lines(data)[0] == head && |head| == i + 1 && head[i] == data[i];
      }
    } else {
      assert Lines(data) == [data];
    }
  }

  /** `_create_audio_response` */
  function CreateAudioResponse(res: SynthesisResult): AudioResponse {
    var (mediaType, name) := AudioType(res.format);
    AudioResponse(mediaType, Lines(res.audio),
      Headers("attachment; filename=" + name, NatToString(|res.audio|), res.duration,
        if "provider" in res.metadata then res.metadata["provider"] else MStr("unknown"),
        res.voice.voiceId, res.voice.languageCode))
  }

  /** The response streams the audio with its length in Content-Length, names the
      attachment after the format, and reports the provider, or "unknown" without one. */
  lemma AudioResponseSpec(res: SynthesisResult)
    ensures var r := CreateAudioResponse(res);
      && Flatten(r.chunks) == res.audio
      && DigitsValue(r.headers.contentLength) == |res.audio|
      && r.headers.disposition == "attachment; filename=" + AudioType(res.format).1
      && r.mediaType == AudioType(res.format).0
      && ("provider" !in res.metadata ==> r.headers.provider == MStr("unknown"))
      && ("provider" in res.metadata ==> r.headers.provider == res.metadata["provider"])
      && r.headers.voiceId == res.voice.voiceId && r.headers.language == res.voice.languageCode
  {
    LinesRoundTrip(res.audio);
    NatToStringValue(|res.audio|);
  }

  // ---------------------------------------------------------------------------
  // The saved file

  /** The extension of the saved file. */
  function SavedExtension(format: string): (ext: string)
    ensures ext == "mp3" || ext == "wav" || ext == "ogg"
    ensures Lower(format) in {"mp3", "wav", "ogg"} ==> ext == Lower(format)
    ensures Lower(format) !in {"mp3", "wav", "ogg"} ==> ext == "mp3"
  {
    var ext := Lower(format);
    if ext in {"mp3", "wav", "ogg"} then ext else "mp3"
  }

  const BaseUrl: string := "http://192.168.0.46:8000"

  /** `TTSResponse` */
  datatype TtsResponse = TtsResponse(
    success: bool, audioUrl: Option<string>, duration: real, text: string, voice: VoiceInfo,
    sentences: seq<SentenceTimestamp>, metadata: map<string, Meta>)

  /** `synthesize_text` (the endpoint), given the service's outcome, the fresh name `uuid`
      and whether writing the file succeeded. */
  function SynthesizeEndpoint(outcome: Result<SynthesisResult, Error>, returnAudio: bool, uuid: string, written: bool)
    : Reply
  {
    match outcome
    case Failure(e) => ErrorReply(e)
    case Success(res) =>
      if returnAudio then Audio(CreateAudioResponse(res))
      else if !written then HttpError(500, UnexpectedError)
      else
        var name := SavedName(uuid, res.format);
        Saved(TtsResponse(true, Some(BaseUrl + "/api/v1/tts/audio/" + name), res.duration, res.text, res.voice,
          res.sentences, res.metadata), name, res.audio)
  }

  /** `synthesize_text_stream` */
  function StreamEndpoint(outcome: Result<SynthesisResult, Error>): Reply {
    match outcome
    case Failure(e) => ErrorReply(e)
    case Success(res) => Audio(CreateAudioResponse(res))
  }

  /** A successful synthesis saved to a file answers with the file's URL and the result's
      own duration, text, voice, sentences and metadata; the file holds the audio. */
  lemma SavedReplySpec(res: SynthesisResult, uuid: string)
    ensures var r := SynthesizeEndpoint(Success(res), false, uuid, true);
      && r.Saved? && r.data == res.audio
      && r.fileName == SavedName(uuid, res.format)
      && r.body.audioUrl == Some(BaseUrl + "/api/v1/tts/audio/" + r.fileName)
      && r.body.success && r.body.duration == res.duration && r.body.text == res.text
      && r.body.voice == res.voice && r.body.sentences == res.sentences && r.body.metadata == res.metadata
  {
  }

  /** Every whitespace-only text of 1 to 5000 characters passes the request constraints
      but the service refuses it, which the endpoint reports as 400; a disabled service
      is a 500. */
  lemma BlankTextIsBadRequest(r: TtsRequest, enabled: bool, providers: seq<string>, primary: string, fallbacks: seq<string>,
                              attempt: (nat, string, Request) -> Result<SynthesisResult, Error>, elapsed: nat -> real,
                              returnAudio: bool, uuid: string, written: bool)
    requires ValidRequest(r) && AllSpace(r.text)
    ensures var outcome := TtsService.Synthesis(enabled, providers, primary, fallbacks, r.text, ServiceParams(r), r.provider, attempt, elapsed);
      && (enabled ==> SynthesizeEndpoint(outcome, returnAudio, uuid, written) == HttpError(400, "Text cannot be empty"))
      && (!enabled ==> SynthesizeEndpoint(outcome, returnAudio, uuid, written) == HttpError(500, SynthesisFailedPrefix + "TTS service is disabled"))
  {
  }

  // ---------------------------------------------------------------------------
  // The download

  /** The media type `get_tts_audio` sends for a suffix. */
  function MediaType(suffix: string): string {
    var ext := Lower(suffix);
    if ext == ".wav" then "audio/wav"
    else if ext == ".mp3" then "audio/mpeg"
    else if ext == ".ogg" then "audio/ogg"
    else "application/octet-stream"
  }

  datatype Download = NotFound(status: int, detail: string) | File(path: string, mediaType: string, fileName: string)

  const TempDir: string := "/tmp/tts"

  /** `get_tts_audio`: the name is joined to the directory as given, and sent back as the
      download name unchanged. */
  function GetAudio(fileName: string, isFile: string -> bool): (d: Download)
    ensures d.NotFound? <==> !isFile(TempDir + "/" + fileName)
    ensures d.NotFound? ==> d.status == 404
    ensures d.File? ==> d.path == TempDir + "/" + fileName && d.fileName == fileName
  {
    var path := TempDir + "/" + fileName;
    if !isFile(path) then NotFound(404, "Audio file not found.")
    else File(path, MediaType(Suffix(path)), fileName)
  }

  /** The name the endpoint saves a result under. */
  function SavedName(uuid: string, format: string): string {
    uuid + "." + SavedExtension(format)
  }

  /** The media type each saved extension is meant to have. */
  function ExtensionType(ext: string): string {
    if ext == "mp3" then "audio/mpeg" else if ext == "wav" then "audio/wav" else "audio/ogg"
  }

  /** A saved file is served with the media type of its extension: the URL the endpoint
      hands out leads to audio/mpeg, audio/wav or audio/ogg, as the extension says. */
  lemma SavedFileServedAsItsType(uuid: string, format: string, isFile: string -> bool)
    requires '.' !in uuid && '/' !in uuid && uuid != []
    requires isFile(TempDir + "/" + SavedName(uuid, format))
    ensures GetAudio(SavedName(uuid, format), isFile) == File(TempDir + "/" + SavedName(uuid, format), ExtensionType(SavedExtension(format)), SavedName(uuid, format))
  {
    ServedType(uuid, SavedExtension(format));
  }

  lemma ServedType(uuid: string, ext: string)
    requires '.' !in uuid && '/' !in uuid && uuid != []
    requires ext == "mp3" || ext == "wav" || ext == "ogg"
    ensures MediaType(Suffix(TempDir + "/" + (uuid + "." + ext))) == ExtensionType(ext)
  {
    assert Suffix(TempDir + "/" + (uuid + "." + ext)) == "." + ext by {
      FormatChars(ext);
      SuffixOfSaved(uuid, ext);
    }
    assert MediaType("." + ext) == ExtensionType(ext) by {
      KnownMediaTypes();
      DottedExtension(ext);
    }
  }

  lemma DottedExtension(ext: string)
    requires ext == "mp3" || ext == "wav" || ext == "ogg"
    ensures ext == "mp3" ==> "." + ext == ".mp3"
    ensures ext == "wav" ==> "." + ext == ".wav"
    ensures ext == "ogg" ==> "." + ext == ".ogg"
  {
  }

  /** The three formats are plain names: no dot, no slash. */
  lemma FormatChars(ext: string)
    requires ext == "mp3" || ext == "wav" || ext == "ogg"
    ensures ext != [] && '.' !in ext && '/' !in ext
  {
  }

  /** The suffix of a saved file's path is its extension. */
  lemma SuffixOfSaved(uuid: string, ext: string)
    requires '.' !in uuid && '/' !in uuid && uuid != []
    requires ext != [] && '.' !in ext && '/' !in ext
    ensures Suffix(TempDir + "/" + (uuid + "." + ext)) == "." + ext
  {
    var name := uuid + "." + ext;
    CharOfJoin(uuid, '.', ext, '/');
    LastComponent(TempDir, name);
    SuffixOfStem(uuid, ext);
  }

  /** A name without capitals is its own lower case. */
  lemma LowerKeeps(s: string)
    requires forall i :: 0 <= i < |s| ==> !('A' <= s[i] <= 'Z')
    ensures Lower(s) == s
  {
  }

  lemma KnownMediaTypes()
    ensures MediaType(".mp3") == "audio/mpeg" && MediaType(".wav") == "audio/wav" && MediaType(".ogg") == "audio/ogg"
  {
    LowerKeeps(".mp3");
    LowerKeeps(".wav");
    LowerKeeps(".ogg");
  }

  /** The same "ogg" result is labelled differently by the two routes: streamed it is
      octet-stream, downloaded it is audio/ogg. */
  lemma OggLabelledTwoWays(res: SynthesisResult)
    requires res.format == "ogg"
    ensures CreateAudioResponse(res).mediaType == "application/octet-stream"
    ensures MediaType(".ogg") == "audio/ogg"
  {
    KnownMediaTypes();
    LowerKeeps("ogg");
  }
}
