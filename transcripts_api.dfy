/**
 * The transcript endpoints (backend/app/api/api_v1/endpoints/transcripts.py): the guard
 * chain every handler runs from a media asset up to its notebook's owner, the upsert of
 * `create_transcript`, and the list, get, update and delete handlers. HTTP errors are
 * their status codes; the AttributeError raised on a page whose notebook is missing
 * surfaces as 500.
 */
module TranscriptsApi {
  import opened Wrappers
  import opened Records
  import opened MediaService
  import NotebookService
  import opened TranscriptService

  /** An attribute of a loaded model instance; every column is one. */
  function Field(row: Row, f: string): Value {
    if f in row then row[f] else Null
  }

  /** `if db_notebook.deleted:` on the Boolean column: only True is truthy. */
  predicate Deleted(notebook: Row) {
    Field(notebook, "deleted") == Bool(true)
  }

  /** `CRUDBase.get`: the first row whose `id` is `id`. */
  function Lookup(rows: seq<Row>, id: Value): (r: Option<Row>)
    ensures r.Some? <==> IndexOf(rows, "id", id).Some?
    ensures r.Some? ==> r.value == rows[IndexOf(rows, "id", id).value] && Has(r.value, "id", id)
  {
    match IndexOf(rows, "id", id)
    case None => None
    case Some(k) => Some(rows[k])
  }

  /** The media asset exists (and is audio, where that is required), its page exists, and
      that page's notebook is the caller's and is not deleted. */
  ghost predicate Authorized(media: seq<Row>, pages: seq<Row>, notebooks: seq<Row>, mediaId: Value, uid: string, audioOnly: bool) {
    exists i, j, k :: 0 <= i < |media| && 0 <= j < |pages| && 0 <= k < |notebooks| &&
      Has(media[i], "id", mediaId) && (audioOnly ==> Field(media[i], "media_type") == Str(Audio)) &&
      Has(pages[j], "id", Field(media[i], "page_id")) &&
      Has(notebooks[k], "id", Field(pages[j], "notebook_id")) &&
      Field(notebooks[k], "user_id") == Str(uid) && !Deleted(notebooks[k])
  }

  /** The lookups of the guard: the media asset (404), for listing and creating its type
      (400), its page (404), and its notebook, whose absence makes `db_notebook.user_id`
      raise AttributeError (500). On success, the asset and where its notebook is. */
  function Reach(media: seq<Row>, pages: seq<Row>, notebooks: seq<Row>, mediaId: Value, audioOnly: bool): (r: Result<(Row, nat), int>)
    ensures r.Success? ==> r.value.0 in media && Has(r.value.0, "id", mediaId) && r.value.1 < |notebooks|
    ensures r.Success? && audioOnly ==> Field(r.value.0, "media_type") == Str(Audio)
    ensures r.Failure? ==> r.error in {400, 404, 500}
    ensures IndexOf(media, "id", mediaId).None? ==> r == Failure(404)
    ensures r == Failure(400) ==> audioOnly
  {
    match Lookup(media, mediaId)
    case None => Failure(404)
    case Some(m) =>
      if audioOnly && Field(m, "media_type") != Str(Audio) then Failure(400)
      else
        match Lookup(pages, Field(m, "page_id"))
        case None => Failure(404)
        case Some(p) =>
          match IndexOf(notebooks, "id", Field(p, "notebook_id"))
          case None => Failure(500)
          case Some(k) => Success((m, k))
  }

  /** The checks shared by every handler, in their order: the lookups, then the notebook's
      owner (403), then its deletion flag (404). */
  function MediaGuard(media: seq<Row>, pages: seq<Row>, notebooks: seq<Row>, mediaId: Value, uid: string, audioOnly: bool): (r: Result<Row, int>)
    ensures r.Success? ==> Authorized(media, pages, notebooks, mediaId, uid, audioOnly)
    ensures r.Success? ==> r.value in media && Has(r.value, "id", mediaId)
    ensures r.Failure? ==> r.error in {400, 403, 404, 500}
  {
    match Reach(media, pages, notebooks, mediaId, audioOnly)
    case Failure(e) => Failure(e)
    case Success((m, k)) =>
      var n := notebooks[k];
      if Field(n, "user_id") != Str(uid) then Failure(403)
      else if Deleted(n) then Failure(404)
      else
        var i := IndexOf(media, "id", mediaId).value;
        var j := IndexOf(pages, "id", Field(m, "page_id")).value;
        assert Has(media[i], "id", mediaId) && Has(pages[j], "id", Field(media[i], "page_id"))
          && Has(notebooks[k], "id", Field(pages[j], "notebook_id"));
        Success(m)
  }

  /** No two rows share a primary key. */
  predicate UniqueIds(rows: seq<Row>) {
    forall a, b :: 0 <= a < b < |rows| && "id" in rows[a] && "id" in rows[b] ==> rows[a]["id"] != rows[b]["id"]
  }

  lemma LookupUnique(rows: seq<Row>, i: nat, id: Value)
    requires UniqueIds(rows) && i < |rows| && Has(rows[i], "id", id)
    ensures Lookup(rows, id) == Some(rows[i])
  {
  }

  /** With primary keys unique, the guard lets a request through exactly when the caller
      is authorized. */
  lemma GuardPassesIffAuthorized(media: seq<Row>, pages: seq<Row>, notebooks: seq<Row>, mediaId: Value, uid: string, audioOnly: bool)
    requires UniqueIds(media) && UniqueIds(pages) && UniqueIds(notebooks)
    ensures MediaGuard(media, pages, notebooks, mediaId, uid, audioOnly).Success? <==> Authorized(media, pages, notebooks, mediaId, uid, audioOnly)
  {
    if Authorized(media, pages, notebooks, mediaId, uid, audioOnly) {
      var i, j, k :| 0 <= i < |media| && 0 <= j < |pages| && 0 <= k < |notebooks| &&
        Has(media[i], "id", mediaId) && (audioOnly ==> Field(media[i], "media_type") == Str(Audio)) &&
        Has(pages[j], "id", Field(media[i], "page_id")) &&
        Has(notebooks[k], "id", Field(pages[j], "notebook_id")) &&
        Field(notebooks[k], "user_id") == Str(uid) && !Deleted(notebooks[k]);
      LookupUnique(media, i, mediaId);
      LookupUnique(pages, j, Field(media[i], "page_id"));
      LookupUnique(notebooks, k, Field(pages[j], "notebook_id"));
    }
  }

  /** Ownership is checked before deletion, so soft-deleting the notebook turns its
      owner's answer into 404 while everybody else keeps getting 403. */
  lemma SoftDeleteAnswers(media: seq<Row>, pages: seq<Row>, notebooks: seq<Row>, mediaId: Value, audioOnly: bool, now: int, owner: string, other: string)
    requires Reach(media, pages, notebooks, mediaId, audioOnly).Success?
    requires var k := Reach(media, pages, notebooks, mediaId, audioOnly).value.1;
      notebooks[k].Keys == NotebookService.NotebookColumns && Field(notebooks[k], "user_id") == Str(owner) && !Deleted(notebooks[k])
    requires other != owner
    ensures var k := Reach(media, pages, notebooks, mediaId, audioOnly).value.1;
      var after := notebooks[k := NotebookService.SoftDeleted(notebooks[k], now)];
      && MediaGuard(media, pages, notebooks, mediaId, owner, audioOnly).Success?
      && MediaGuard(media, pages, notebooks, mediaId, other, audioOnly) == Failure(403)
      && MediaGuard(media, pages, after, mediaId, owner, audioOnly) == Failure(404)
      && MediaGuard(media, pages, after, mediaId, other, audioOnly) == Failure(403)
  {
    var r := Reach(media, pages, notebooks, mediaId, audioOnly);
    var k := r.value.1;
    var data := map["deleted" := Bool(true), "deleted_at" := Time(now)];
    var after := notebooks[k := NotebookService.SoftDeleted(notebooks[k], now)];
    var m := Lookup(media, mediaId).value;
    var p := Lookup(pages, Field(m, "page_id")).value;
    IndexOfAfterUpdate(notebooks, k, data, "id", Field(p, "notebook_id"));
    assert Reach(media, pages, after, mediaId, audioOnly) == r;
    UpdatedRowFields(notebooks[k], data, "user_id");
    UpdatedRowFields(notebooks[k], data, "deleted");
    assert Field(after[k], "user_id") == Str(owner) && Deleted(after[k]);
  }

  // ---------------------------------------------------------------------------
  // The handlers

  /** `GET /`: query validation (422 unless skip >= 0 and 1 <= limit <= 100), the guard
      for an audio asset, then the page of transcripts and the count of all of them. */
  function ListTranscripts(transcripts: seq<Row>, media: seq<Row>, pages: seq<Row>, notebooks: seq<Row>,
                           mediaId: Value, uid: string, skip: int, limit: int): (r: Result<(seq<Row>, nat), int>)
    ensures r.Success? ==> Authorized(media, pages, notebooks, mediaId, uid, true)
    ensures r.Success? ==> |r.value.0| <= limit <= 100 && r.value.1 <= |transcripts|
    ensures r.Success? ==> forall x :: x in r.value.0 ==> x in transcripts && OfMedia(x, mediaId)
    ensures r.Success? ==> SortedBy(r.value.0, ByStartTime)
  {
    if skip < 0 || limit < 1 || limit > 100 then Failure(422)
    else
      match MediaGuard(media, pages, notebooks, mediaId, uid, true)
      case Failure(e) => Failure(e)
      case Success(_) => Success((GetByMediaAsset(transcripts, mediaId, skip, limit), CountByMediaAsset(transcripts, mediaId)))
  }

  /** The chain of the handlers addressed by transcript id: the transcript (404), then the
      guard without the audio check. On success, where the transcript is. */
  function TranscriptGuard(transcripts: seq<Row>, media: seq<Row>, pages: seq<Row>, notebooks: seq<Row>, id: Value, uid: string): (r: Result<nat, int>)
    ensures r.Success? ==> r.value < |transcripts| && Has(transcripts[r.value], "id", id)
    ensures r.Success? ==> Authorized(media, pages, notebooks, Field(transcripts[r.value], "media_asset_id"), uid, false)
    ensures IndexOf(transcripts, "id", id).None? ==> r == Failure(404)
    ensures r.Failure? ==> r.error in {403, 404, 500}
  {
    match IndexOf(transcripts, "id", id)
    case None => Failure(404)
    case Some(k) =>
      match MediaGuard(media, pages, notebooks, Field(transcripts[k], "media_asset_id"), uid, false)
      case Failure(e) => Failure(e)
      case Success(_) => Success(k)
  }

  /** `GET /{transcript_id}` */
  function GetTranscript(transcripts: seq<Row>, media: seq<Row>, pages: seq<Row>, notebooks: seq<Row>, id: Value, uid: string): (r: Result<Row, int>)
    ensures r.Success? ==> r.value in transcripts && Has(r.value, "id", id)
    ensures r.Success? ==> Authorized(media, pages, notebooks, Field(r.value, "media_asset_id"), uid, false)
    ensures r.Failure? <==> TranscriptGuard(transcripts, media, pages, notebooks, id, uid).Failure?
  {
    match TranscriptGuard(transcripts, media, pages, notebooks, id, uid)
    case Failure(e) => Failure(e)
    case Success(k) => Success(transcripts[k])
  }

  /** The write `create_transcript` makes: the table after it, the next key, the row. */
  datatype Upsert = Upsert(rows: seq<Row>, nextId: nat, row: Row)

  /** The `TranscriptUpdate` built from a create request: all three fields set, so all three
      are written even when the request left one at None. */
  function RequestUpdate(c: TranscriptCreate): TranscriptUpdate {
    TranscriptUpdate(Some(Str(c.text)), Some(c.confidence), Some(c.metadata))
  }

  /** The upsert keyed by (media asset, provider): the first transcript of that pair is
      updated in place, otherwise one is created. */
  function Upserted(t: Records.Table, rows: seq<Row>, nextId: nat, c: TranscriptCreate, now: int): (u: Upsert)
    requires IsTranscriptTable(t)
    ensures GetByProvider(rows, c.mediaAssetId, c.provider).Some? ==>
      var k := GetByProvider(rows, c.mediaAssetId, c.provider).value;
      && |u.rows| == |rows| && u.nextId == nextId && u.rows[k] == u.row
      && (forall j :: 0 <= j < |rows| && j != k ==> u.rows[j] == rows[j])
    ensures GetByProvider(rows, c.mediaAssetId, c.provider).None? ==>
      u.rows == rows + [u.row] && u.nextId == nextId + 1 && u.row.Keys == TranscriptColumns
    ensures OfMediaAndProvider(u.row, c.mediaAssetId, c.provider)
  {
    match GetByProvider(rows, c.mediaAssetId, c.provider)
    case Some(k) =>
      var row := Rewritten(rows[k], c);
      Upsert(rows[k := row], nextId, row)
    case None =>
      var row := Created(t, c, nextId, now);
      Upsert(rows + [row], nextId + 1, row)
  }

  /** What the upsert writes into a transcript: the request's text, confidence and
      metadata. */
  predicate HoldsRequest(row: Row, c: TranscriptCreate) {
    && row.Keys == TranscriptColumns
    && row["text"] == Str(c.text) && row["confidence"] == c.confidence
    && row["transcript_metadata"] == c.metadata
  }

  /** The found transcript after the update: still of its media asset and provider, and
      holding the request when the row held every column. */
  function Rewritten(row: Row, c: TranscriptCreate): (r: Row)
    requires OfMediaAndProvider(row, c.mediaAssetId, c.provider)
    ensures OfMediaAndProvider(r, c.mediaAssetId, c.provider)
    ensures row.Keys == TranscriptColumns ==> HoldsRequest(r, c)
  {
    var fields := UpdateFields(RequestUpdate(c));
    UpdatedRowFields(row, fields, "media_asset_id");
    UpdatedRowFields(row, fields, "provider");
    RequestWritten(row, c);
    UpdatedRow(row, fields)
  }

  lemma RequestWritten(row: Row, c: TranscriptCreate)
    ensures row.Keys == TranscriptColumns ==> HoldsRequest(UpdatedRow(row, UpdateFields(RequestUpdate(c))), c)
  {
    if row.Keys == TranscriptColumns {
      UpdateTranscriptFields(row, RequestUpdate(c));
    }
  }

  /** The new transcript: every column, of the request's media asset and provider, holding
      the request. */
  function Created(t: Records.Table, c: TranscriptCreate, id: nat, now: int): (r: Row)
    requires IsTranscriptTable(t)
    ensures OfMediaAndProvider(r, c.mediaAssetId, c.provider) && HoldsRequest(r, c)
  {
    var data := CreateData(c);
    assert "media_asset_id" in data && "provider" in data && "media_asset_id" in t.columns && "provider" in t.columns;
    assert "text" in data && "confidence" in data && "transcript_metadata" in data;
    t.NewRow(data, id, now)
  }

  /** Rewriting twice is rewriting once. */
  lemma RewriteTwice(row: Row, c: TranscriptCreate)
    requires OfMediaAndProvider(row, c.mediaAssetId, c.provider)
    ensures Rewritten(Rewritten(row, c), c) == Rewritten(row, c)
  {
    UpdateIdempotent(row, UpdateFields(RequestUpdate(c)));
  }

  /** Rewriting a transcript that already holds the request changes nothing. */
  lemma RewriteHeld(row: Row, c: TranscriptCreate)
    requires OfMediaAndProvider(row, c.mediaAssetId, c.provider) && HoldsRequest(row, c)
    ensures Rewritten(row, c) == row
  {
    UpdateAlreadyHeld(row, UpdateFields(RequestUpdate(c)));
  }

  /** Every row holds every column. */
  predicate Complete(rows: seq<Row>) {
    forall j :: 0 <= j < |rows| ==> rows[j].Keys == TranscriptColumns
  }

  /** Whichever branch runs, the stored transcript carries the request's text, confidence
      and metadata, and the table keeps every column. */
  lemma UpsertStoresRequest(t: Records.Table, rows: seq<Row>, nextId: nat, c: TranscriptCreate, now: int)
    requires IsTranscriptTable(t) && Complete(rows)
    ensures var u := Upserted(t, rows, nextId, c, now);
      && Complete(u.rows) && u.row in u.rows
      && u.row["text"] == Str(c.text) && u.row["confidence"] == c.confidence
      && u.row["transcript_metadata"] == c.metadata
  {
    var u := Upserted(t, rows, nextId, c, now);
    match GetByProvider(rows, c.mediaAssetId, c.provider)
    case Some(k) =>
      assert u.rows[k] == u.row && HoldsRequest(u.row, c);
    case None =>
      assert u.rows[|rows|] == u.row && HoldsRequest(u.row, c);
  }

  /** Two transcripts of the same media asset from the same provider. */
  predicate SamePair(x: Row, y: Row) {
    "media_asset_id" in x && "provider" in x &&
    Has(y, "media_asset_id", x["media_asset_id"]) && Has(y, "provider", x["provider"])
  }

  /** At most one transcript per (media asset, provider). */
  predicate OnePerProvider(rows: seq<Row>) {
    forall a, b :: 0 <= a < b < |rows| ==> !SamePair(rows[a], rows[b])
  }

  /** The upsert never gives a (media asset, provider) pair a second transcript. */
  lemma UpsertKeepsOnePerProvider(t: Records.Table, rows: seq<Row>, nextId: nat, c: TranscriptCreate, now: int)
    requires IsTranscriptTable(t) && OnePerProvider(rows)
    ensures OnePerProvider(Upserted(t, rows, nextId, c, now).rows)
  {
    var u := Upserted(t, rows, nextId, c, now);
    var fields := UpdateFields(RequestUpdate(c));
    match GetByProvider(rows, c.mediaAssetId, c.provider)
    case Some(k) =>
      forall j | 0 <= j < |rows|
        ensures (forall f :: f in {"media_asset_id", "provider"} ==> (f in u.rows[j] <==> f in rows[j]))
        ensures "media_asset_id" in rows[j] ==> u.rows[j]["media_asset_id"] == rows[j]["media_asset_id"]
        ensures "provider" in rows[j] ==> u.rows[j]["provider"] == rows[j]["provider"]
      {
        if j == k {
          UpdatedRowFields(rows[k], fields, "media_asset_id");
          UpdatedRowFields(rows[k], fields, "provider");
        }
      }
    case None =>
      forall a, b | 0 <= a < b < |u.rows|
        ensures !SamePair(u.rows[a], u.rows[b])
      {
        if b == |rows| {
          assert u.rows[a] == rows[a];
        }
      }
  }

  /** A row already holding what an update writes is left as it is. */
  lemma UpdateAlreadyHeld(row: Row, data: map<string, Value>)
    requires forall f :: f in data && f in row ==> row[f] == data[f]
    ensures UpdatedRow(row, data) == row
  {
    var r := UpdatedRow(row, data);
    assert r.Keys == row.Keys;
    assert forall f :: f in r ==> r[f] == row[f];
  }

  /** Sending the same create request twice leaves the table as after the first one: the
      second finds the transcript the first wrote and rewrites the same values. */
  lemma UpsertIdempotent(t: Records.Table, rows: seq<Row>, nextId: nat, c: TranscriptCreate, now: int, later: int)
    requires IsTranscriptTable(t)
    ensures var once := Upserted(t, rows, nextId, c, now);
      var twice := Upserted(t, once.rows, once.nextId, c, later);
      twice.rows == once.rows && twice.nextId == once.nextId
  {
    var once := Upserted(t, rows, nextId, c, now);
    match GetByProvider(rows, c.mediaAssetId, c.provider)
    case Some(k) =>
      var row := Rewritten(rows[k], c);
      assert once == Upsert(rows[k := row], nextId, row);
      FirstMatchAt(once.rows, c.mediaAssetId, c.provider, k);
      RewriteTwice(rows[k], c);
      assert Upserted(t, once.rows, once.nextId, c, later) == Upsert(once.rows[k := row], nextId, row);
      assert once.rows[k := row] == once.rows;
    case None =>
      var n := |rows|;
      FirstMatchAt(once.rows, c.mediaAssetId, c.provider, n);
      RewriteHeld(once.row, c);
      assert Upserted(t, once.rows, once.nextId, c, later) == Upsert(once.rows[n := once.row], once.nextId, once.row);
      assert once.rows[n := once.row] == once.rows;
  }

  /** A row of the pair with none before it is the one the lookup finds. */
  lemma FirstMatchAt(rows: seq<Row>, mediaAssetId: Value, provider: string, k: nat)
    requires k < |rows| && OfMediaAndProvider(rows[k], mediaAssetId, provider)
    requires forall j :: 0 <= j < k ==> !OfMediaAndProvider(rows[j], mediaAssetId, provider)
    ensures GetByProvider(rows, mediaAssetId, provider) == Some(k)
  {
  }

  /** `POST /`: the guard for an audio asset, then the upsert. */
  method CreateTranscript(transcripts: Records.Table, media: Records.Table, pages: Records.Table, notebooks: Records.Table,
                          c: TranscriptCreate, uid: string, now: int) returns (r: Result<Row, int>)
    requires transcripts.Valid() && IsTranscriptTable(transcripts)
    modifies transcripts
    ensures transcripts.Valid()
    ensures var g := old(MediaGuard(media.rows, pages.rows, notebooks.rows, c.mediaAssetId, uid, true));
      g.Failure? ==> r == Failure(g.error) && transcripts.rows == old(transcripts.rows) && transcripts.nextId == old(transcripts.nextId)
    ensures var g := old(MediaGuard(media.rows, pages.rows, notebooks.rows, c.mediaAssetId, uid, true));
      var u := old(Upserted(transcripts, transcripts.rows, transcripts.nextId, c, now));
      g.Success? ==> r == Success(u.row) && transcripts.rows == u.rows && transcripts.nextId == u.nextId
  {
    var g := MediaGuard(media.rows, pages.rows, notebooks.rows, c.mediaAssetId, uid, true);
    if g.Failure? {
      return Failure(g.error);
    }
    var existing := GetByProvider(transcripts.rows, c.mediaAssetId, c.provider);
    var row;
    if existing.Some? {
      row := UpdateTranscript(transcripts, existing.value, RequestUpdate(c));
    } else {
      row := CreateWithMediaAsset(transcripts, c, now);
    }
    r := Success(row);
  }

  /** `PATCH /{transcript_id}`: the chain, then the fields the caller set. */
  method PatchTranscript(transcripts: Records.Table, media: Records.Table, pages: Records.Table, notebooks: Records.Table,
                         id: Value, u: TranscriptUpdate, uid: string) returns (r: Result<Row, int>)
    requires transcripts.Valid() && IsTranscriptTable(transcripts)
    modifies transcripts
    ensures transcripts.Valid() && transcripts.nextId == old(transcripts.nextId)
    ensures var g := old(TranscriptGuard(transcripts.rows, media.rows, pages.rows, notebooks.rows, id, uid));
      g.Failure? ==> r == Failure(g.error) && transcripts.rows == old(transcripts.rows)
    ensures var g := old(TranscriptGuard(transcripts.rows, media.rows, pages.rows, notebooks.rows, id, uid));
      g.Success? ==>
        var updated := UpdatedRow(old(transcripts.rows)[g.value], UpdateFields(u));
        r == Success(updated) && transcripts.rows == old(transcripts.rows)[g.value := updated]
  {
    var g := TranscriptGuard(transcripts.rows, media.rows, pages.rows, notebooks.rows, id, uid);
    if g.Failure? {
      return Failure(g.error);
    }
    var row := UpdateTranscript(transcripts, g.value, u);
    r := Success(row);
  }

  /** `DELETE /{transcript_id}`: the chain, then `remove`, which returns the row. */
  method DeleteTranscript(transcripts: Records.Table, media: Records.Table, pages: Records.Table, notebooks: Records.Table,
                          id: Value, uid: string) returns (r: Result<Row, int>)
    requires transcripts.Valid() && IsTranscriptTable(transcripts)
    modifies transcripts
    ensures transcripts.Valid() && transcripts.nextId == old(transcripts.nextId)
    ensures var g := old(TranscriptGuard(transcripts.rows, media.rows, pages.rows, notebooks.rows, id, uid));
      g.Failure? ==> r == Failure(g.error) && transcripts.rows == old(transcripts.rows)
    ensures var g := old(TranscriptGuard(transcripts.rows, media.rows, pages.rows, notebooks.rows, id, uid));
      g.Success? ==> r == Success(old(transcripts.rows)[g.value]) && transcripts.rows == Without(old(transcripts.rows), g.value)
  {
    var g := TranscriptGuard(transcripts.rows, media.rows, pages.rows, notebooks.rows, id, uid);
    if g.Failure? {
      return Failure(g.error);
    }
    var removed := transcripts.Remove(id);
    r := Success(removed.value);
  }
}
