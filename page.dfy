/**
 * The page record service (backend/app/services/page.py) and the columns of
 * backend/app/models/page.py.
 */
module PageService {
  import opened Wrappers
  import opened Records

  const PageColumns: set<string> := {
    "id", "title", "notebook_id", "import_id", "page_number", "canvas_data", "created_at", "updated_at"}

  const PageAttributes: set<string> := PageColumns + {"notebook", "media_assets", "metadata"}

  /** `page_number` defaults to 1 in the column definition. */
  const PageDefaults: map<string, Value> := map["page_number" := Int(1)]

  predicate IsPageTable(t: Records.Table) {
    t.key == "id" && t.columns == PageColumns && t.attributes == PageAttributes && t.defaults == PageDefaults
  }

  predicate InNotebook(row: Row, notebookId: Value) {
    Has(row, "notebook_id", notebookId)
  }

  /** The page is in the notebook and carries the number `n`. */
  predicate NumberedIn(row: Row, notebookId: Value, n: int) {
    InNotebook(row, notebookId) && Has(row, "page_number", Int(n))
  }

  /** `order_by(Page.page_number)`: ascending, a missing number last. */
  function ByPageNumber(row: Row): SortKey {
    if "page_number" in row && row["page_number"].Int? then At(row["page_number"].i as real) else NullsLast
  }

  /** `get_by_notebook`: the notebook's pages by number, then OFFSET/LIMIT. */
  function GetByNotebook(rows: seq<Row>, notebookId: Value, skip: nat, limit: nat): (r: seq<Row>)
    ensures |r| <= limit
    ensures forall x :: x in r ==> x in rows && InNotebook(x, notebookId)
    ensures SortedBy(r, ByPageNumber)
  {
    ListingSorted(rows, row => InNotebook(row, notebookId), ByPageNumber, skip, limit);
    Listing(rows, row => InNotebook(row, notebookId), ByPageNumber, skip, limit)
  }

  /** `get_count_by_notebook` */
  function CountByNotebook(rows: seq<Row>, notebookId: Value): (n: nat)
    ensures n <= |rows|
    ensures n == 0 <==> forall x :: x in rows ==> !InNotebook(x, notebookId)
  {
    var matching := Where(rows, row => InNotebook(row, notebookId));
    assert matching != [] ==> matching[0] in matching;
    |matching|
  }

  /** `func.max(Page.page_number)` over the notebook: None when it has no numbered page. */
  function MaxPageNumber(rows: seq<Row>, notebookId: Value): (m: Option<int>)
    ensures m.Some? ==> forall j, n :: 0 <= j < |rows| && NumberedIn(rows[j], notebookId, n) ==> n <= m.value
    ensures m.None? ==> forall j, n :: 0 <= j < |rows| ==> !NumberedIn(rows[j], notebookId, n)
  {
    if rows == [] then None
    else
      var init := rows[..|rows| - 1];
      var last := rows[|rows| - 1];
      var before := MaxPageNumber(init, notebookId);
      assert forall j :: 0 <= j < |init| ==> rows[j] == init[j];
      if InNotebook(last, notebookId) && "page_number" in last && last["page_number"].Int? then
        var n := last["page_number"].i;
        Some(if before.Some? && before.value > n then before.value else n)
      else before
  }

  /** The maximum is the number of one of the notebook's pages. */
  lemma {:induction false} MaxPageNumberAttained(rows: seq<Row>, notebookId: Value)
    requires MaxPageNumber(rows, notebookId).Some?
    ensures exists j :: 0 <= j < |rows| && NumberedIn(rows[j], notebookId, MaxPageNumber(rows, notebookId).value)
    decreases |rows|
  {
    var init := rows[..|rows| - 1];
    var last := rows[|rows| - 1];
    var m := MaxPageNumber(rows, notebookId).value;
    if InNotebook(last, notebookId) && "page_number" in last && last["page_number"].Int? && m == last["page_number"].i {
      assert NumberedIn(rows[|rows| - 1], notebookId, m);
    } else {
      MaxPageNumberAttained(init, notebookId);
      var j :| 0 <= j < |init| && NumberedIn(init[j], notebookId, m);
      assert rows[j] == init[j];
    }
  }

  /** `PageCreate`: the notebook, an optional title and canvas, and the requested number. */
  datatype PageCreate = PageCreate(notebookId: Value, title: Value, pageNumber: int, canvasData: Value)

  /** The number the page is stored with: a requested number of at most 1 means "next",
      one past the notebook's highest (`or 0` for an empty notebook); a larger one is kept. */
  function AssignedNumber(rows: seq<Row>, c: PageCreate): int {
    if c.pageNumber <= 1 then
      (match MaxPageNumber(rows, c.notebookId) case None => 0 case Some(m) => m) + 1
    else c.pageNumber
  }

  /** `obj_in.dict()` with the number replaced. */
  function PageData(c: PageCreate, n: int): (data: map<string, Value>)
    ensures data.Keys == {"notebook_id", "title", "page_number", "canvas_data"}
  {
    map["notebook_id" := c.notebookId, "title" := c.title, "page_number" := Int(n), "canvas_data" := c.canvasData]
  }

  /** An auto-numbered page goes after every numbered page of its notebook, and is page 1
      of an empty one; a number above 1 is stored as requested. */
  lemma AssignedNumberSpec(rows: seq<Row>, c: PageCreate)
    ensures c.pageNumber > 1 ==> AssignedNumber(rows, c) == c.pageNumber
    ensures c.pageNumber <= 1 ==> forall j, n :: 0 <= j < |rows| && NumberedIn(rows[j], c.notebookId, n) ==> n < AssignedNumber(rows, c)
    ensures c.pageNumber <= 1 && (forall j, n :: 0 <= j < |rows| ==> !NumberedIn(rows[j], c.notebookId, n)) ==> AssignedNumber(rows, c) == 1
  {
    if c.pageNumber <= 1 && MaxPageNumber(rows, c.notebookId).Some? {
      MaxPageNumberAttained(rows, c.notebookId);
    }
  }

  /** An auto-numbered page is one past the highest number, which some page holds. */
  lemma AutoNumberFollowsLast(rows: seq<Row>, c: PageCreate)
    requires c.pageNumber <= 1 && MaxPageNumber(rows, c.notebookId).Some?
    ensures exists j :: 0 <= j < |rows| && NumberedIn(rows[j], c.notebookId, AssignedNumber(rows, c) - 1)
  {
    MaxPageNumberAttained(rows, c.notebookId);
  }

  /** Nothing stops a requested number from repeating one already in the notebook. */
  lemma RequestedNumberMayRepeat(rows: seq<Row>, c: PageCreate, j: nat)
    requires j < |rows| && c.pageNumber > 1 && NumberedIn(rows[j], c.notebookId, c.pageNumber)
    ensures NumberedIn(rows[j], c.notebookId, AssignedNumber(rows, c))
  {
  }

  /** `create_with_notebook` */
  method CreateWithNotebook(t: Records.Table, c: PageCreate, now: int) returns (row: Row)
    requires t.Valid() && IsPageTable(t)
    modifies t
    ensures t.Valid()
    ensures row == t.NewRow(PageData(c, AssignedNumber(old(t.rows), c)), old(t.nextId), now)
    ensures t.rows == old(t.rows) + [row] && t.nextId == old(t.nextId) + 1
    ensures NumberedIn(row, c.notebookId, AssignedNumber(old(t.rows), c))
  {
    var n := AssignedNumber(t.rows, c);
    var r := t.Create(PageData(c, n), now);
    row := r.value;
  }

  /** `PageUpdate`; None is a field the caller did not set. */
  datatype PageUpdate = PageUpdate(title: Option<Value>, pageNumber: Option<Value>, canvasData: Option<Value>)

  /** `obj_in.dict(exclude_unset=True)` */
  function PageUpdateFields(u: PageUpdate): (data: map<string, Value>)
    ensures "title" in data <==> u.title.Some?
    ensures "page_number" in data <==> u.pageNumber.Some?
    ensures "canvas_data" in data <==> u.canvasData.Some?
    ensures data.Keys <= {"title", "page_number", "canvas_data"}
  {
    var a := if u.title.Some? then map["title" := u.title.value] else map[];
    var b := if u.pageNumber.Some? then a["page_number" := u.pageNumber.value] else a;
    if u.canvasData.Some? then b["canvas_data" := u.canvasData.value] else b
  }

  /** `update_page` writes the fields the caller set and nothing else; the notebook and
      the key never change. */
  lemma UpdatePageFields(row: Row, u: PageUpdate)
    requires row.Keys == PageColumns
    ensures var r := UpdatedRow(row, PageUpdateFields(u));
      && r.Keys == PageColumns
      && r["title"] == (if u.title.Some? then u.title.value else row["title"])
      && r["page_number"] == (if u.pageNumber.Some? then u.pageNumber.value else row["page_number"])
      && r["canvas_data"] == (if u.canvasData.Some? then u.canvasData.value else row["canvas_data"])
      && forall f :: f in row && f !in {"title", "page_number", "canvas_data"} ==> r[f] == row[f]
  {
  }

  /** `update_page` on the row at `k`. */
  method UpdatePage(t: Records.Table, k: nat, u: PageUpdate) returns (updated: Row)
    requires t.Valid() && IsPageTable(t) && k < |t.rows|
    modifies t
    ensures t.Valid() && t.nextId == old(t.nextId)
    ensures updated == UpdatedRow(old(t.rows[k]), PageUpdateFields(u))
    ensures t.rows == old(t.rows)[k := updated]
  {
    updated := t.Update(k, Dict(PageUpdateFields(u)));
  }
}
