/**
 * The transcript record service (backend/app/services/transcript.py) and the columns of
 * backend/app/models/transcript.py.
 */
module TranscriptService {
  import opened Wrappers
  import opened Records

  const TranscriptColumns: set<string> := {
    "id", "media_asset_id", "provider", "text", "start_time", "end_time", "confidence",
    "transcript_metadata", "created_at"}

  /** What `Transcript(**data)` accepts: the columns, the `media_asset` relationship and
      the declarative base's `metadata`. */
  const TranscriptAttributes: set<string> := TranscriptColumns + {"media_asset", "metadata"}

  predicate IsTranscriptTable(t: Records.Table) {
    t.key == "id" && t.columns == TranscriptColumns && t.attributes == TranscriptAttributes && t.defaults == map[]
  }

  /** `TranscriptCreate`; the optional fields hold Null when not given. */
  datatype TranscriptCreate = TranscriptCreate(
    mediaAssetId: Value, provider: string, text: string,
    startTime: Value, endTime: Value, confidence: Value, metadata: Value)

  /** `TranscriptUpdate`; None is a field the caller did not set, `Some(Null)` one set to None. */
  datatype TranscriptUpdate = TranscriptUpdate(text: Option<Value>, confidence: Option<Value>, metadata: Option<Value>)

  /** `obj_in.dict()` of a create request: every field, set or not. */
  function CreateData(c: TranscriptCreate): (data: map<string, Value>)
    ensures data.Keys == TranscriptColumns - {"id", "created_at"}
  {
    map["media_asset_id" := c.mediaAssetId, "provider" := Str(c.provider), "text" := Str(c.text),
        "start_time" := c.startTime, "end_time" := c.endTime, "confidence" := c.confidence,
        "transcript_metadata" := c.metadata]
  }

  /** `obj_in.dict(exclude_unset=True)` of an update request. */
  function UpdateFields(u: TranscriptUpdate): (data: map<string, Value>)
    ensures "text" in data <==> u.text.Some?
    ensures "confidence" in data <==> u.confidence.Some?
    ensures "transcript_metadata" in data <==> u.metadata.Some?
    ensures data.Keys <= {"text", "confidence", "transcript_metadata"}
    ensures u.text.Some? ==> data["text"] == u.text.value
    ensures u.confidence.Some? ==> data["confidence"] == u.confidence.value
    ensures u.metadata.Some? ==> data["transcript_metadata"] == u.metadata.value
  {
    var a := if u.text.Some? then map["text" := u.text.value] else map[];
    var b := if u.confidence.Some? then a["confidence" := u.confidence.value] else a;
    if u.metadata.Some? then b["transcript_metadata" := u.metadata.value] else b
  }

  predicate OfMedia(row: Row, mediaAssetId: Value) {
    Has(row, "media_asset_id", mediaAssetId)
  }

  predicate OfMediaAndProvider(row: Row, mediaAssetId: Value, provider: string) {
    OfMedia(row, mediaAssetId) && Has(row, "provider", Str(provider))
  }

  /** `order_by(Transcript.start_time)`: ascending, a missing start time last. */
  function ByStartTime(row: Row): SortKey {
    if "start_time" in row && row["start_time"].Real? then At(row["start_time"].r) else NullsLast
  }

  /** `get_by_media_asset`: the asset's transcripts by start time, then OFFSET/LIMIT. */
  function GetByMediaAsset(rows: seq<Row>, mediaAssetId: Value, skip: nat, limit: nat): (r: seq<Row>)
    ensures |r| <= limit
    ensures forall x :: x in r ==> x in rows && OfMedia(x, mediaAssetId)
    ensures SortedBy(r, ByStartTime)
  {
    ListingSorted(rows, row => OfMedia(row, mediaAssetId), ByStartTime, skip, limit);
    Listing(rows, row => OfMedia(row, mediaAssetId), ByStartTime, skip, limit)
  }

  /** `get_count_by_media_asset`: the same filter, counted. */
  function CountByMediaAsset(rows: seq<Row>, mediaAssetId: Value): (n: nat)
    ensures n <= |rows|
    ensures n == 0 <==> forall x :: x in rows ==> !OfMedia(x, mediaAssetId)
  {
    var matching := Where(rows, row => OfMedia(row, mediaAssetId));
    assert matching != [] ==> matching[0] in matching;
    |matching|
  }

  /** `get_by_provider`: where the first transcript of that asset and provider is. */
  function GetByProvider(rows: seq<Row>, mediaAssetId: Value, provider: string): (k: Option<nat>)
    ensures k.Some? ==> k.value < |rows| && OfMediaAndProvider(rows[k.value], mediaAssetId, provider)
    ensures k.Some? ==> forall j :: 0 <= j < k.value ==> !OfMediaAndProvider(rows[j], mediaAssetId, provider)
    ensures k.None? <==> forall j :: 0 <= j < |rows| ==> !OfMediaAndProvider(rows[j], mediaAssetId, provider)
  {
    FirstWhere(rows, row => OfMediaAndProvider(row, mediaAssetId, provider))
  }

  /** `create_with_media_asset`: a row holding exactly the request's fields. */
  method CreateWithMediaAsset(t: Records.Table, c: TranscriptCreate, now: int) returns (row: Row)
    requires t.Valid() && IsTranscriptTable(t)
    modifies t
    ensures t.Valid()
    ensures t.rows == old(t.rows) + [row] && t.nextId == old(t.nextId) + 1
    ensures row == t.NewRow(CreateData(c), old(t.nextId), now)
    ensures OfMediaAndProvider(row, c.mediaAssetId, c.provider) && row["text"] == Str(c.text)
  {
    var r := t.Create(CreateData(c), now);
    row := r.value;
  }

  /** The row after `update_transcript`: the fields the caller set, and only those. */
  lemma UpdateTranscriptFields(row: Row, u: TranscriptUpdate)
    requires row.Keys == TranscriptColumns
    ensures var r := UpdatedRow(row, UpdateFields(u));
      && r.Keys == TranscriptColumns
      && r["text"] == (if u.text.Some? then u.text.value else row["text"])
      && r["confidence"] == (if u.confidence.Some? then u.confidence.value else row["confidence"])
      && r["transcript_metadata"] == (if u.metadata.Some? then u.metadata.value else row["transcript_metadata"])
      && forall f :: f in row && f !in {"text", "confidence", "transcript_metadata"} ==> r[f] == row[f]
  {
  }

  /** `update_transcript` on the row at `k`. */
  method UpdateTranscript(t: Records.Table, k: nat, u: TranscriptUpdate) returns (updated: Row)
    requires t.Valid() && IsTranscriptTable(t) && k < |t.rows|
    modifies t
    ensures t.Valid() && t.nextId == old(t.nextId)
    ensures updated == UpdatedRow(old(t.rows[k]), UpdateFields(u))
    ensures t.rows == old(t.rows)[k := updated]
  {
    updated := t.Update(k, Dict(UpdateFields(u)));
  }
}
