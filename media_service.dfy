/**
 * The media-asset record service (backend/app/services/media.py) and the enums of
 * backend/app/models/media.py.
 */
module MediaService {
  import opened Wrappers
  import opened Records

  // MediaType and ProcessingStatus, stored as their string values.
  const Audio := "audio"
  const Image := "image"
  const Pdf := "pdf"
  const Url := "url"
  const Pending := "pending"
  const Processing := "processing"
  const Completed := "completed"
  const Failed := "failed"

  const MediaTypes: set<string> := {Audio, Image, Pdf, Url}
  const Statuses: set<string> := {Pending, Processing, Completed, Failed}

  /** The columns of the `media_assets` table. */
  const MediaColumns: set<string> := {
    "id", "filename", "media_type", "status", "storage_path", "page_id", "duration",
    "mime_type", "error_message", "created_at", "updated_at", "processed_at"}

  /** What `MediaAsset(**data)` accepts: the columns, the two relationships and the
      declarative base's `metadata`. */
  const MediaAttributes: set<string> := MediaColumns + {"page", "transcripts", "metadata"}

  /** `status` defaults to PENDING in the column definition. */
  const MediaDefaults: map<string, Value> := map["status" := Str(Pending)]

  /** A table laid out as `media_assets`. */
  predicate IsMediaTable(t: Records.Table) {
    t.key == "id" && t.columns == MediaColumns && t.attributes == MediaAttributes && t.defaults == MediaDefaults
  }

  /** `order_by(MediaAsset.created_at.desc())`: newest first. */
  function NewestFirst(row: Row): SortKey {
    if "created_at" in row && row["created_at"].Time? then At(-(row["created_at"].t as real)) else NullsFirst
  }

  predicate OnPage(row: Row, pageId: Value) {
    Has(row, "page_id", pageId)
  }

  /** `get_by_page`: the page's assets, newest first, then OFFSET/LIMIT. */
  function GetByPage(rows: seq<Row>, pageId: Value, skip: nat, limit: nat): (r: seq<Row>)
    ensures |r| <= limit
    ensures forall x :: x in r ==> x in rows && OnPage(x, pageId)
    ensures SortedBy(r, NewestFirst)
  {
    ListingSorted(rows, row => OnPage(row, pageId), NewestFirst, skip, limit);
    Listing(rows, row => OnPage(row, pageId), NewestFirst, skip, limit)
  }

  /** `get_count_by_page` */
  function CountByPage(rows: seq<Row>, pageId: Value): (n: nat)
    ensures n <= |rows|
    ensures n == 0 <==> forall x :: x in rows ==> !OnPage(x, pageId)
  {
    var matching := Where(rows, row => OnPage(row, pageId));
    assert matching != [] ==> matching[0] in matching;
    |matching|
  }

  /** `get_by_type`: the page's assets of one type, newest first, then OFFSET/LIMIT. */
  function GetByType(rows: seq<Row>, pageId: Value, mediaType: string, skip: nat, limit: nat): (r: seq<Row>)
    ensures |r| <= limit
    ensures forall x :: x in r ==> x in rows && OnPage(x, pageId) && Has(x, "media_type", Str(mediaType))
    ensures SortedBy(r, NewestFirst)
  {
    var cond := row => OnPage(row, pageId) && Has(row, "media_type", Str(mediaType));
    ListingSorted(rows, cond, NewestFirst, skip, limit);
    Listing(rows, cond, NewestFirst, skip, limit)
  }

  /** `create_with_page`: the asset is built from the request, then its status is set to
      PENDING whatever the request said. */
  method CreateWithPage(t: Records.Table, data: map<string, Value>, now: int) returns (r: Result<Row, string>)
    requires t.Valid() && IsMediaTable(t)
    modifies t
    ensures t.Valid()
    ensures r.Failure? <==> !(data.Keys <= MediaAttributes)
    ensures r.Failure? ==> t.rows == old(t.rows)
    ensures r.Success? ==> r.value == t.NewRow(data, old(t.nextId), now)["status" := Str(Pending)]
    ensures r.Success? ==> t.rows == old(t.rows) + [r.value] && Has(r.value, "status", Str(Pending))
  {
    var created := t.Create(data, now);
    if created.Failure? {
      return created;
    }
    var k := |t.rows| - 1;
    var row := t.Update(k, Dict(map["status" := Str(Pending)]));
    assert row == created.value["status" := Str(Pending)];
    r := Success(row);
  }

  /** The row after `update_status(status, error_message)`. */
  function StatusUpdated(row: Row, status: string, errorMessage: Option<string>, now: int): Row
    requires row.Keys == MediaColumns
  {
    var withStatus := row["status" := Str(status)];
    var stamped := if status == Completed || status == Failed then withStatus["processed_at" := Time(now)] else withStatus;
    if errorMessage.Some? && errorMessage.value != "" then stamped["error_message" := Str(errorMessage.value)] else stamped
  }

  /** `update_status` always writes the new status; `processed_at` is stamped exactly for
      the two terminal states and otherwise left as it was (never cleared); the error
      message changes only when a non-empty one is passed (never cleared); nothing else
      changes. */
  lemma StatusUpdatedFields(row: Row, status: string, errorMessage: Option<string>, now: int)
    requires row.Keys == MediaColumns
    ensures var r := StatusUpdated(row, status, errorMessage, now);
      && r.Keys == MediaColumns
      && r["status"] == Str(status)
      && (status in {Completed, Failed} ==> r["processed_at"] == Time(now))
      && (status !in {Completed, Failed} ==> r["processed_at"] == row["processed_at"])
      && (errorMessage.Some? && errorMessage.value != "" ==> r["error_message"] == Str(errorMessage.value))
      && (errorMessage.None? || errorMessage.value == "" ==> r["error_message"] == row["error_message"])
      && forall f :: f in row && f !in {"status", "processed_at", "error_message"} ==> r[f] == row[f]
  {
  }

  /** A stamped `processed_at` survives any later status update. */
  lemma ProcessedAtNeverCleared(row: Row, first: string, second: string, msg: Option<string>, t1: int, t2: int)
    requires row.Keys == MediaColumns && first in {Completed, Failed}
    ensures StatusUpdated(StatusUpdated(row, first, msg, t1), second, None, t2)["processed_at"] != Null
  {
    StatusUpdatedFields(row, first, msg, t1);
    StatusUpdatedFields(StatusUpdated(row, first, msg, t1), second, None, t2);
  }

  /** `update_status` on the row at `k`. */
  method UpdateStatus(t: Records.Table, k: nat, status: string, errorMessage: Option<string>, now: int) returns (updated: Row)
    requires t.Valid() && IsMediaTable(t) && k < |t.rows|
    modifies t
    ensures t.Valid()
    ensures updated == StatusUpdated(old(t.rows[k]), status, errorMessage, now)
    ensures t.rows == old(t.rows)[k := updated]
  {
    var fields := map["status" := Str(status)];
    if status == Completed || status == Failed {
      fields := fields["processed_at" := Time(now)];
    }
    if errorMessage.Some? && errorMessage.value != "" {
      fields := fields["error_message" := Str(errorMessage.value)];
    }
    StatusWrite(t.rows[k], fields, status, errorMessage, now);
    updated := t.Update(k, Dict(fields));
  }

  /** Writing the fields `update_status` collects gives `StatusUpdated`. */
  lemma StatusWrite(row: Row, fields: map<string, Value>, status: string, errorMessage: Option<string>, now: int)
    requires row.Keys == MediaColumns
    requires var f0 := map["status" := Str(status)];
      var f1 := if status == Completed || status == Failed then f0["processed_at" := Time(now)] else f0;
      fields == if errorMessage.Some? && errorMessage.value != "" then f1["error_message" := Str(errorMessage.value)] else f1
    ensures UpdatedRow(row, UpdateData(Dict(fields))) == StatusUpdated(row, status, errorMessage, now)
  {
    var u := UpdatedRow(row, fields);
    var r := StatusUpdated(row, status, errorMessage, now);
    forall f | f in row
      ensures u[f] == r[f]
    {
      UpdatedRowFields(row, fields, f);
    }
    UpdatedRowFields(row, fields, "status");
  }
}
