/**
 * The media worker (backend/app/workers/media_worker.py): looks an asset up, writes
 * PROCESSING, runs the handler for its type, then writes COMPLETED or FAILED.
 *
 * How the module reaches the record store is a parameter, `Wiring`, because the code as
 * written cannot reach it:
 * - `crud_media` is used but never imported;
 * - the store calls are awaited, but the CRUD methods are plain functions
 *   (backend/app/services/base.py:34, 63, 81) on the synchronous session the push endpoint
 *   hands over, so even with `crud_media` bound to `media_asset` the first `await` raises
 *   TypeError;
 * - the status is written under a key the table does not have;
 * - the audio handler reads and writes fields the models lack.
 * `AsWritten` is the module as it stands, `Patched` the module with `crud_media` patched in
 * as awaitable mocks, as the unit tests do, `Corrected` the evident intent, which also
 * assumes awaitable store calls.
 */
module MediaWorker {
  import opened Wrappers
  import opened Strings
  import opened Records
  import opened MediaService
  import opened TranscriptService

  datatype Wiring = Wiring(
    /** Whether the name `crud_media` resolves to the media service. */
    crudMediaBound: bool,
    /** Whether the store calls return something `await` accepts. */
    storeAwaitable: bool,
    /** The key of the status writes. */
    statusKey: string,
    /** Whether the audio handler reads `media.language` and writes the transcript's
        `language` and `metadata` keys. */
    legacyTranscriptFields: bool)

  const AsWritten := Wiring(false, false, "processing_status", true)
  const Patched := Wiring(true, true, "processing_status", true)
  const Corrected := Wiring(true, true, "status", false)

  /** The lookup and the status writes can run at all. */
  predicate StoreReachable(w: Wiring) {
    w.crudMediaBound && w.storeAwaitable
  }

  /** What the speech-to-text provider returns; `metadataJson` is the JSON text of the
      segments merged with the provider's own metadata. */
  datatype Transcription = Transcription(text: string, confidence: real, languageCode: string, metadataJson: string)

  /** A store call that raises once; the recovery path's own calls then succeed. */
  datatype DbFault = NoFault | GetRaises | FirstUpdateRaises | FinalUpdateRaises | CreateRaises

  /** The file system, the speech-to-text call (given the language and the audio format)
      and the store's failures. */
  datatype Env = Env(fileExists: string -> bool, transcribe: (string, string) -> Result<Transcription, string>, fault: DbFault)

  datatype Store = Store(media: seq<Row>, transcripts: seq<Row>, nextTranscriptId: nat)

  /** The outcome of one `process_media` call: its result, the store afterwards and the
      status values written, in order. */
  datatype Run = Run(ok: bool, store: Store, statusWrites: seq<string>)

  datatype Handled = Handled(ok: bool, transcripts: seq<Row>, nextId: nat)

  // ---------------------------------------------------------------------------
  // Audio format

  predicate AllDots(s: string) {
    forall j :: 0 <= j < |s| ==> s[j] == '.'
  }

  /** `os.path.splitext(path)[1]`: from the last dot of the file name, unless every
      character before that dot in the name is a dot too. */
  function Extension(path: string): (ext: string)
    ensures ext == [] || ext[0] == '.'
    ensures '/' !in ext
  {
    var name := FinalComponent(path);
    match LastIndexOfChar(name, '.')
    case None => []
    case Some(d) =>
      if AllDots(name[..d]) then []
      else
        assert forall c :: c in name[d..] ==> c in name;
        name[d..]
  }

  /** `os.path.splitext(path)[1].lower().replace(".", "")` */
  function ExtensionName(path: string): string {
    var ext := Extension(path);
    if ext == [] then [] else Lower(ext[1..])
  }

  const AudioFormats: set<string> := {"wav", "mp3", "flac", "ogg"}

  /** The format passed to the transcription: the file extension when it is a known
      audio format, else "wav". */
  function AudioFormat(path: string): (f: string)
    ensures f in AudioFormats
    ensures f == ExtensionName(path) || (f == "wav" && ExtensionName(path) !in AudioFormats)
  {
    var e := ExtensionName(path);
    if e in AudioFormats then e else "wav"
  }

  /** The known formats hold no dot and no slash, and are already lower-case. */
  lemma AudioFormatChars(ext: string)
    requires ext in AudioFormats
    ensures '.' !in ext && '/' !in ext && Lower(ext) == ext
  {
  }

  /** The extension of a name `stem.ext` whose stem has no dot. */
  lemma ExtensionOfName(dir: string, stem: string, ext: string)
    requires stem != [] && '.' !in stem && '/' !in stem && '.' !in ext && '/' !in ext
    ensures Extension(dir + "/" + (stem + "." + ext)) == "." + ext
  {
    var name := stem + "." + ext;
    JoinedParts(stem, '.', ext);
    CharOfJoin(stem, '.', ext, '/');
    LastComponent(dir, name);
    LastIndexOfCharAt(name, '.', |stem|);
    assert !AllDots(stem) by {
      assert stem[0] in stem;
    }
  }

  /** A file named `stem.ext` in any directory reports `ext`. */
  lemma AudioFormatOfName(dir: string, stem: string, ext: string)
    requires ext in AudioFormats && stem != [] && '.' !in stem && '/' !in stem
    ensures AudioFormat(dir + "/" + (stem + "." + ext)) == ext
  {
    AudioFormatChars(ext);
    ExtensionOfName(dir, stem, ext);
    assert ("." + ext)[1..] == ext;
  }

  // ---------------------------------------------------------------------------
  // The specification of one run

  /** `rows[k]` after `crud_media.update(obj_in={key: status})`. */
  function WriteStatus(rows: seq<Row>, k: nat, key: string, status: string): seq<Row>
    requires k < |rows|
  {
    rows[k := UpdatedRow(rows[k], map[key := Str(status)])]
  }

  /** The dict the audio handler passes to `crud_transcript.create`. */
  function TranscriptData(media: Row, t: Transcription, w: Wiring): (data: map<string, Value>)
    ensures data.Keys == {"media_asset_id", "text", "provider", "confidence"} +
      (if w.legacyTranscriptFields then {"language", "metadata"} else {"transcript_metadata"})
    ensures "provider" in data && data["provider"] == Str("google")
    ensures "text" in data && data["text"] == Str(t.text)
    ensures "confidence" in data && data["confidence"] == Real(t.confidence)
  {
    var common := map[
      "media_asset_id" := (if "id" in media then media["id"] else Null),
      "text" := Str(t.text), "provider" := Str("google"), "confidence" := Real(t.confidence)];
    if w.legacyTranscriptFields then
      common["language" := Str(t.languageCode)]["metadata" := Json(t.metadataJson)]
    else common["transcript_metadata" := Json(t.metadataJson)]
  }

  /** `media.language or "ja-JP"`; the corrected handler, with no such column, uses the default. */
  function Language(media: Row, w: Wiring): string
    requires w.legacyTranscriptFields ==> "language" in media
  {
    if w.legacyTranscriptFields && media["language"].Str? && media["language"].s != [] then media["language"].s
    else "ja-JP"
  }

  /** `_process_audio`: every failure is caught and reported as False. */
  function AudioHandled(transcripts: Records.Table, media: Row, rows: seq<Row>, next: nat, w: Wiring, env: Env, now: int): Handled {
    var noTranscript := Handled(false, rows, next);
    if !("storage_path" in media && media["storage_path"].Str?) then noTranscript
    else
      var path := media["storage_path"].s;
      if !env.fileExists(path) then noTranscript
      else if w.legacyTranscriptFields && "language" !in media then noTranscript
      else match env.transcribe(Language(media, w), AudioFormat(path))
        case Failure(_) => noTranscript
        case Success(t) =>
          var data := TranscriptData(media, t, w);
          if env.fault == CreateRaises || !(data.Keys <= transcripts.attributes) then noTranscript
          else Handled(true, rows + [transcripts.NewRow(data, next, now)], next + 1)
  }

  /** The dispatch on `media_type`: audio is transcribed, image, PDF and URL succeed with
      nothing done, any other type fails. */
  function Handle(transcripts: Records.Table, media: Row, rows: seq<Row>, next: nat, w: Wiring, env: Env, now: int): Handled {
    var kind := if "media_type" in media then media["media_type"] else Null;
    if kind == Str(Audio) then AudioHandled(transcripts, media, rows, next, w, env, now)
    else if kind == Str(Image) || kind == Str(Pdf) || kind == Str(Url) then Handled(true, rows, next)
    else Handled(false, rows, next)
  }

  /** The `except` branch: look the asset up again and, if found, write FAILED. */
  function RecoveredRows(rows: seq<Row>, mediaId: Value, w: Wiring): seq<Row> {
    match IndexOf(rows, "id", mediaId)
    case None => rows
    case Some(k) => WriteStatus(rows, k, w.statusKey, Failed)
  }

  /** The run that ends in the `except` branch after the status writes `earlier`. */
  function Recovered(s: Store, mediaId: Value, w: Wiring, earlier: seq<string>): Run {
    var found := IndexOf(s.media, "id", mediaId).Some?;
    Run(false, s.(media := RecoveredRows(s.media, mediaId, w)), if found then earlier + [Failed] else earlier)
  }

  /** `process_media` */
  function Process(transcripts: Records.Table, s: Store, mediaId: Value, w: Wiring, env: Env, now: int): Run {
    if !StoreReachable(w) then Run(false, s, [])
    else if env.fault == GetRaises then Recovered(s, mediaId, w, [])
    else match IndexOf(s.media, "id", mediaId)
      case None => Run(false, s, [])
      case Some(k) =>
        if env.fault == FirstUpdateRaises then Recovered(s, mediaId, w, [])
        else
          var m1 := WriteStatus(s.media, k, w.statusKey, Processing);
          var h := Handle(transcripts, m1[k], s.transcripts, s.nextTranscriptId, w, env, now);
          var s1 := Store(m1, h.transcripts, h.nextId);
          if env.fault == FinalUpdateRaises then Recovered(s1, mediaId, w, [Processing])
          else
            var status := if h.ok then Completed else Failed;
            Run(h.ok, s1.(media := WriteStatus(m1, k, w.statusKey, status)), [Processing, status])
  }

  // ---------------------------------------------------------------------------
  // Properties of a run

  /** An unknown id returns False and writes nothing. */
  lemma UnknownMediaFails(transcripts: Records.Table, s: Store, mediaId: Value, w: Wiring, env: Env, now: int)
    requires IndexOf(s.media, "id", mediaId).None?
    ensures Process(transcripts, s, mediaId, w, env, now) == Run(false, s, [])
  {
  }

  /** A found asset gets exactly two status writes, PROCESSING and then the outcome. */
  lemma TwoStatusWrites(transcripts: Records.Table, s: Store, mediaId: Value, w: Wiring, env: Env, now: int)
    requires StoreReachable(w) && env.fault in {NoFault, CreateRaises}
    requires IndexOf(s.media, "id", mediaId).Some?
    ensures var run := Process(transcripts, s, mediaId, w, env, now);
      run.statusWrites == [Processing, if run.ok then Completed else Failed]
  {
  }

  /** A store failure around the handler ends in False with FAILED as the last status
      written: the best-effort write of the `except` branch. */
  lemma StoreFaultEndsFailed(transcripts: Records.Table, s: Store, mediaId: Value, w: Wiring, env: Env, now: int)
    requires StoreReachable(w) && w.statusKey != "id"
    requires env.fault in {GetRaises, FirstUpdateRaises, FinalUpdateRaises}
    requires IndexOf(s.media, "id", mediaId).Some?
    ensures var run := Process(transcripts, s, mediaId, w, env, now);
      !run.ok && run.statusWrites != [] && run.statusWrites[|run.statusWrites| - 1] == Failed
  {
    var k := IndexOf(s.media, "id", mediaId).value;
    if env.fault == FinalUpdateRaises {
      IndexOfAfterUpdate(s.media, k, map[w.statusKey := Str(Processing)], "id", mediaId);
    }
  }

  /** As written, `crud_media` is an unbound name: the lookup raises NameError, the
      recovery's lookup raises it again, and every call returns False having changed
      nothing. */
  lemma AsWrittenNeverProcesses(transcripts: Records.Table, s: Store, mediaId: Value, env: Env, now: int)
    ensures Process(transcripts, s, mediaId, AsWritten, env, now) == Run(false, s, [])
  {
  }

  /** With `crud_media` bound to `media_asset` but the synchronous CRUD methods awaited, the
      lookup's `await` raises TypeError, so does the recovery's, and every call still returns
      False having changed nothing. */
  lemma SynchronousStoreNeverProcesses(transcripts: Records.Table, s: Store, mediaId: Value, env: Env, now: int)
    ensures Process(transcripts, s, mediaId, AsWritten.(crudMediaBound := true), env, now) == Run(false, s, [])
  {
  }

  /** A status written under a key the row does not have changes nothing. */
  lemma WriteUnknownKey(rows: seq<Row>, k: nat, key: string, status: string)
    requires k < |rows| && key !in rows[k]
    ensures WriteStatus(rows, k, key, status) == rows
  {
    UpdateWithUnknownKeys(rows[k], map[key := Str(status)]);
  }

  lemma RecoveredUnknownKey(s: Store, mediaId: Value, w: Wiring, earlier: seq<string>)
    requires forall i :: 0 <= i < |s.media| ==> w.statusKey !in s.media[i]
    ensures Recovered(s, mediaId, w, earlier).store == s
  {
    var found := IndexOf(s.media, "id", mediaId);
    if found.Some? {
      WriteUnknownKey(s.media, found.value, w.statusKey, Failed);
    }
  }

  /** With `crud_media` patched in, the writes under `processing_status` name no column
      of `media_assets`, so `CRUDBase.update` drops them: the media rows never change. */
  lemma StatusWritesDropped(transcripts: Records.Table, s: Store, mediaId: Value, env: Env, now: int)
    requires forall i :: 0 <= i < |s.media| ==> s.media[i].Keys == MediaColumns
    ensures Process(transcripts, s, mediaId, Patched, env, now).store.media == s.media
  {
    var w := Patched;
    assert w.statusKey !in MediaColumns;
    RecoveredUnknownKey(s, mediaId, w, []);
    var found := IndexOf(s.media, "id", mediaId);
    if env.fault != GetRaises && found.Some? && env.fault != FirstUpdateRaises {
      var k := found.value;
      WriteUnknownKey(s.media, k, w.statusKey, Processing);
      var h := Handle(transcripts, s.media[k], s.transcripts, s.nextTranscriptId, w, env, now);
      RecoveredUnknownKey(Store(s.media, h.transcripts, h.nextId), mediaId, w, [Processing]);
      WriteUnknownKey(s.media, k, w.statusKey, if h.ok then Completed else Failed);
    }
  }

  /** With the status written under `status`, the asset ends COMPLETED exactly when the
      handler succeeded and FAILED otherwise; its other columns are untouched. */
  lemma CorrectedStatusLands(transcripts: Records.Table, s: Store, mediaId: Value, env: Env, now: int)
    requires env.fault in {NoFault, CreateRaises}
    requires IndexOf(s.media, "id", mediaId).Some?
    requires forall i :: 0 <= i < |s.media| ==> s.media[i].Keys == MediaColumns
    ensures var k := IndexOf(s.media, "id", mediaId).value;
      var run := Process(transcripts, s, mediaId, Corrected, env, now);
      && |run.store.media| == |s.media|
      && run.store.media[k]["status"] == Str(if run.ok then Completed else Failed)
      && (forall f :: f in s.media[k] && f != "status" ==> run.store.media[k][f] == s.media[k][f])
      && (forall i :: 0 <= i < |s.media| && i != k ==> run.store.media[i] == s.media[i])
  {
  }

  /** Image, PDF and URL assets complete without processing; an unknown type fails; neither
      touches the transcripts. */
  lemma NonAudioOutcome(transcripts: Records.Table, s: Store, mediaId: Value, w: Wiring, env: Env, now: int)
    requires StoreReachable(w) && w.statusKey != "media_type" && env.fault in {NoFault, CreateRaises}
    requires IndexOf(s.media, "id", mediaId).Some?
    requires var row := s.media[IndexOf(s.media, "id", mediaId).value];
      "media_type" in row && row["media_type"] != Str(Audio)
    ensures var row := s.media[IndexOf(s.media, "id", mediaId).value];
      var run := Process(transcripts, s, mediaId, w, env, now);
      && run.ok == (row["media_type"] in {Str(Image), Str(Pdf), Str(Url)})
      && run.store.transcripts == s.transcripts
  {
    var k := IndexOf(s.media, "id", mediaId).value;
    var row := s.media[k];
    var m1 := WriteStatus(s.media, k, w.statusKey, Processing);
    assert m1[k]["media_type"] == row["media_type"];
  }

  /** An audio asset whose file is missing fails without a transcript. */
  lemma MissingAudioFileFails(transcripts: Records.Table, media: Row, rows: seq<Row>, next: nat, w: Wiring, env: Env, now: int)
    requires "storage_path" in media && media["storage_path"].Str?
    requires !env.fileExists(media["storage_path"].s)
    ensures AudioHandled(transcripts, media, rows, next, w, env, now) == Handled(false, rows, next)
  {
  }

  /** As written, the audio handler can never store a transcript: a media row has no
      `language` attribute, and the dict it would pass to `Transcript(**data)` carries
      `language`, which the model rejects with TypeError. */
  lemma LegacyAudioNeverTranscribes(transcripts: Records.Table, media: Row, rows: seq<Row>, next: nat, env: Env, now: int, t: Transcription)
    requires IsTranscriptTable(transcripts) && media.Keys == MediaColumns
    ensures AudioHandled(transcripts, media, rows, next, Patched, env, now) == Handled(false, rows, next)
    ensures !(TranscriptData(media, t, Patched).Keys <= TranscriptAttributes)
  {
    assert "language" !in MediaColumns;
    assert "language" !in TranscriptAttributes;
  }

  /** Corrected, a successful transcription appends exactly one transcript of the asset,
      with provider "google" and the text and confidence of the result. */
  lemma CorrectedAudioTranscribes(transcripts: Records.Table, media: Row, rows: seq<Row>, next: nat, env: Env, now: int)
    requires IsTranscriptTable(transcripts) && env.fault != CreateRaises
    requires "storage_path" in media && media["storage_path"].Str? && env.fileExists(media["storage_path"].s)
    requires env.transcribe("ja-JP", AudioFormat(media["storage_path"].s)).Success?
    ensures var t := env.transcribe("ja-JP", AudioFormat(media["storage_path"].s)).value;
      var h := AudioHandled(transcripts, media, rows, next, Corrected, env, now);
      && h.ok && |h.transcripts| == |rows| + 1 && h.transcripts[..|rows|] == rows && h.nextId == next + 1
      && var added := h.transcripts[|rows|];
      && Has(added, "provider", Str("google")) && Has(added, "text", Str(t.text))
      && Has(added, "confidence", Real(t.confidence))
      && Has(added, "media_asset_id", if "id" in media then media["id"] else Null)
  {
    var t := env.transcribe("ja-JP", AudioFormat(media["storage_path"].s)).value;
    var data := TranscriptData(media, t, Corrected);
    assert data.Keys == {"media_asset_id", "text", "provider", "confidence", "transcript_metadata"};
    var h := AudioHandled(transcripts, media, rows, next, Corrected, env, now);
    assert h.transcripts == rows + [transcripts.NewRow(data, next, now)];
  }

  /** There is no idempotence guard: running an audio asset twice stores two transcripts
      of the same asset and provider, where an upsert would keep one. */
  lemma ReprocessingDuplicates(transcripts: Records.Table, media: Row, rows: seq<Row>, next: nat, env: Env, now: int)
    requires IsTranscriptTable(transcripts) && env.fault != CreateRaises
    requires "storage_path" in media && media["storage_path"].Str? && env.fileExists(media["storage_path"].s)
    requires env.transcribe("ja-JP", AudioFormat(media["storage_path"].s)).Success?
    ensures var once := AudioHandled(transcripts, media, rows, next, Corrected, env, now);
      var twice := AudioHandled(transcripts, media, once.transcripts, once.nextId, Corrected, env, now);
      && |twice.transcripts| == |rows| + 2
      && twice.transcripts[|rows|]["provider"] == twice.transcripts[|rows| + 1]["provider"]
      && twice.transcripts[|rows|]["media_asset_id"] == twice.transcripts[|rows| + 1]["media_asset_id"]
  {
    CorrectedAudioTranscribes(transcripts, media, rows, next, env, now);
    var once := AudioHandled(transcripts, media, rows, next, Corrected, env, now);
    CorrectedAudioTranscribes(transcripts, media, once.transcripts, once.nextId, env, now);
    var twice := AudioHandled(transcripts, media, once.transcripts, once.nextId, Corrected, env, now);
    assert twice.transcripts[..|once.transcripts|] == once.transcripts;
    assert twice.transcripts[|rows|] == once.transcripts[|rows|];
  }

  // ---------------------------------------------------------------------------
  // The worker

  class MediaWorker {
    const media: Records.Table
    const transcripts: Records.Table
    const wiring: Wiring

    ghost predicate Valid()
      reads this, media, transcripts
    {
      media != transcripts && media.Valid() && IsMediaTable(media) && transcripts.Valid() && IsTranscriptTable(transcripts)
    }

    constructor (media: Records.Table, transcripts: Records.Table, wiring: Wiring)
      requires media != transcripts && media.Valid() && IsMediaTable(media) && transcripts.Valid() && IsTranscriptTable(transcripts)
      ensures Valid() && this.media == media && this.transcripts == transcripts && this.wiring == wiring
    {
      this.media := media;
      this.transcripts := transcripts;
      this.wiring := wiring;
    }

    /** `process_media`: the store afterwards and the result are those of `Process`. */
    method ProcessMedia(mediaId: Value, env: Env, now: int) returns (ok: bool)
      requires Valid()
      modifies media, transcripts
      ensures Valid()
      ensures var run := old(Process(transcripts, Store(media.rows, transcripts.rows, transcripts.nextId), mediaId, wiring, env, now));
        && ok == run.ok && media.rows == run.store.media
        && transcripts.rows == run.store.transcripts && transcripts.nextId == run.store.nextTranscriptId
    {
      ghost var s0 := Store(media.rows, transcripts.rows, transcripts.nextId);
      if !StoreReachable(wiring) {
        return false;
      }
      if env.fault == GetRaises {
        Recover(mediaId);
        assert Process(transcripts, s0, mediaId, wiring, env, now) == Recovered(s0, mediaId, wiring, []);
        return false;
      }
      var found := media.Find(mediaId);
      if found.None? {
        assert Process(transcripts, s0, mediaId, wiring, env, now) == Run(false, s0, []);
        return false;
      }
      if env.fault == FirstUpdateRaises {
        Recover(mediaId);
        assert Process(transcripts, s0, mediaId, wiring, env, now) == Recovered(s0, mediaId, wiring, []);
        return false;
      }
      ok := ProcessFound(found.value, mediaId, env, now);
    }

    /** `process_media` once the asset is found at `k` and the first write goes through. */
    method ProcessFound(k: nat, mediaId: Value, env: Env, now: int) returns (ok: bool)
      requires Valid() && StoreReachable(wiring) && env.fault !in {GetRaises, FirstUpdateRaises}
      requires IndexOf(media.rows, "id", mediaId) == Some(k)
      modifies media, transcripts
      ensures Valid()
      ensures var run := old(Process(transcripts, Store(media.rows, transcripts.rows, transcripts.nextId), mediaId, wiring, env, now));
        && ok == run.ok && media.rows == run.store.media
        && transcripts.rows == run.store.transcripts && transcripts.nextId == run.store.nextTranscriptId
    {
      ghost var s0 := Store(media.rows, transcripts.rows, transcripts.nextId);
      ghost var run := Process(transcripts, s0, mediaId, wiring, env, now);
      var _ := media.Update(k, Dict(map[wiring.statusKey := Str(Processing)]));
      ghost var m1 := media.rows;
      assert m1 == WriteStatus(s0.media, k, wiring.statusKey, Processing);
      var success := HandleMedia(media.rows[k], env, now);
      ghost var h := Handle(transcripts, m1[k], s0.transcripts, s0.nextTranscriptId, wiring, env, now);
      if env.fault == FinalUpdateRaises {
        Recover(mediaId);
        assert run == Recovered(Store(m1, h.transcripts, h.nextId), mediaId, wiring, [Processing]);
        return false;
      }
      var status := if success then Completed else Failed;
      var _ := media.Update(k, Dict(map[wiring.statusKey := Str(status)]));
      ok := success;
    }

    /** The `except` branch of `process_media`. */
    method Recover(mediaId: Value)
      requires Valid()
      modifies media
      ensures Valid()
      ensures media.rows == old(RecoveredRows(media.rows, mediaId, wiring))
    {
      var found := media.Find(mediaId);
      if found.Some? {
        var _ := media.Update(found.value, Dict(map[wiring.statusKey := Str(Failed)]));
      }
    }

    /** The dispatch on the media type. */
    method HandleMedia(row: Row, env: Env, now: int) returns (ok: bool)
      requires Valid()
      modifies transcripts
      ensures Valid()
      ensures var h := old(Handle(transcripts, row, transcripts.rows, transcripts.nextId, wiring, env, now));
        ok == h.ok && transcripts.rows == h.transcripts && transcripts.nextId == h.nextId
    {
      var kind := if "media_type" in row then row["media_type"] else Null;
      if kind == Str(Audio) {
        ok := ProcessAudio(row, env, now);
      } else {
        ok := kind == Str(Image) || kind == Str(Pdf) || kind == Str(Url);
      }
    }

    /** `_process_audio` */
    method ProcessAudio(row: Row, env: Env, now: int) returns (ok: bool)
      requires Valid()
      modifies transcripts
      ensures Valid()
      ensures var h := old(AudioHandled(transcripts, row, transcripts.rows, transcripts.nextId, wiring, env, now));
        ok == h.ok && transcripts.rows == h.transcripts && transcripts.nextId == h.nextId
    {
      if !("storage_path" in row && row["storage_path"].Str?) {
        return false;
      }
      var path := row["storage_path"].s;
      if !env.fileExists(path) {
        return false;
      }
      if wiring.legacyTranscriptFields && "language" !in row {
        return false;
      }
      var result := env.transcribe(Language(row, wiring), AudioFormat(path));
      if result.Failure? {
        return false;
      }
      if env.fault == CreateRaises {
        return false;
      }
      var created := transcripts.Create(TranscriptData(row, result.value, wiring), now);
      ok := created.Success?;
    }
  }

  /** `process_media_task`: a fresh worker over the same store. */
  method ProcessMediaTask(media: Records.Table, transcripts: Records.Table, wiring: Wiring, mediaId: Value, env: Env, now: int)
    returns (ok: bool)
    requires media != transcripts && media.Valid() && IsMediaTable(media) && transcripts.Valid() && IsTranscriptTable(transcripts)
    modifies media, transcripts
    ensures media.Valid() && transcripts.Valid()
    ensures var run := old(Process(transcripts, Store(media.rows, transcripts.rows, transcripts.nextId), mediaId, wiring, env, now));
      && ok == run.ok && media.rows == run.store.media
      && transcripts.rows == run.store.transcripts && transcripts.nextId == run.store.nextTranscriptId
  {
    var worker := new MediaWorker(media, transcripts, wiring);
    ok := worker.ProcessMedia(mediaId, env, now);
  }
}
