/**
 * The notebook record service (backend/app/services/notebook.py) over the `notebooks`
 * and `tags` tables of backend/app/models/notebook.py and backend/app/models/tag.py.
 * The `notebook_tags` association is the map from a notebook's key to the keys of its
 * tags, in the order they were attached.
 */
module NotebookService {
  import opened Wrappers
  import opened Strings
  import opened Seqs
  import opened Records

  const NotebookColumns: set<string> := {
    "id", "title", "description", "user_id", "folder", "deleted", "deleted_at", "created_at", "updated_at"}

  const NotebookAttributes: set<string> := NotebookColumns + {"user", "pages", "tags", "metadata"}

  const NotebookDefaults: map<string, Value> := map["folder" := Str("/"), "deleted" := Bool(false)]

  const TagColumns: set<string> := {"id", "name", "user_id", "color", "created_at", "updated_at"}

  const TagAttributes: set<string> := TagColumns + {"notebooks", "metadata"}

  predicate IsNotebookTable(t: Records.Table) {
    t.key == "id" && t.columns == NotebookColumns && t.attributes == NotebookAttributes && t.defaults == NotebookDefaults
  }

  predicate IsTagTable(t: Records.Table) {
    t.key == "id" && t.columns == TagColumns && t.attributes == TagAttributes && t.defaults == map[]
  }

  // ---------------------------------------------------------------------------
  // Listing

  /** `Notebook.user_id == user_id, Notebook.deleted == False`: a NULL flag does not match. */
  predicate LiveOf(row: Row, user: Value) {
    Has(row, "user_id", user) && Has(row, "deleted", Bool(false))
  }

  /** `get_by_user`: the user's live notebooks in scan order, then OFFSET/LIMIT. */
  function GetByUser(rows: seq<Row>, user: Value, skip: nat, limit: nat): (r: seq<Row>)
    ensures |r| <= limit
    ensures forall x :: x in r ==> x in rows && LiveOf(x, user)
  {
    var live := Where(rows, row => LiveOf(row, user));
    assert forall j :: 0 <= j < |Window(live, skip, limit)| ==> Window(live, skip, limit)[j] in live;
    Window(live, skip, limit)
  }

  /** `get_count_by_user` */
  function CountByUser(rows: seq<Row>, user: Value): nat {
    |Where(rows, row => LiveOf(row, user))|
  }

  /** The number of rows meeting `cond`, counted from the end. */
  function Count(rows: seq<Row>, cond: Row -> bool): nat {
    if rows == [] then 0
    else Count(rows[..|rows| - 1], cond) + (if cond(rows[|rows| - 1]) then 1 else 0)
  }

  lemma {:induction false} CountIsWhere(rows: seq<Row>, cond: Row -> bool)
    ensures |Where(rows, cond)| == Count(rows, cond)
    decreases |rows|
  {
    if rows != [] {
      CountIsWhere(rows[..|rows| - 1], cond);
    }
  }

  /** Replacing one row changes the count of a filter by what the replacement changes. */
  lemma {:induction false} CountAfterWrite(rows: seq<Row>, k: nat, row: Row, cond: Row -> bool)
    requires k < |rows|
    ensures Count(rows[k := row], cond) + (if cond(rows[k]) then 1 else 0)
         == Count(rows, cond) + (if cond(row) then 1 else 0)
    decreases |rows|
  {
    var after := rows[k := row];
    var n := |rows| - 1;
    if k < n {
      var init := rows[..n];
      assert after[..n] == init[k := row] && after[n] == rows[n] && init[k] == rows[k];
      CountAfterWrite(init, k, row, cond);
    } else {
      assert after[..n] == rows[..n] && after[n] == row;
    }
  }

  lemma WhereCountAfterWrite(rows: seq<Row>, k: nat, row: Row, cond: Row -> bool)
    requires k < |rows|
    ensures |Where(rows[k := row], cond)| + (if cond(rows[k]) then 1 else 0)
         == |Where(rows, cond)| + (if cond(row) then 1 else 0)
  {
    CountIsWhere(rows, cond);
    CountIsWhere(rows[k := row], cond);
    CountAfterWrite(rows, k, row, cond);
  }

  /** The row after `soft_delete`: flagged and stamped, every other column kept. */
  function SoftDeleted(row: Row, now: int): Row {
    UpdatedRow(row, map["deleted" := Bool(true), "deleted_at" := Time(now)])
  }

  /** Soft deletion keeps the record but removes it from the owner's count. */
  lemma SoftDeleteHides(rows: seq<Row>, k: nat, now: int)
    requires k < |rows| && rows[k].Keys == NotebookColumns
    requires "user_id" in rows[k] && LiveOf(rows[k], rows[k]["user_id"])
    ensures var user := rows[k]["user_id"];
      var after := rows[k := SoftDeleted(rows[k], now)];
      && |after| == |rows| && after[k]["id"] == rows[k]["id"] && after[k]["title"] == rows[k]["title"]
      && after[k]["deleted"] == Bool(true) && after[k]["deleted_at"] == Time(now)
      && CountByUser(after, user) == CountByUser(rows, user) - 1
  {
    var user := rows[k]["user_id"];
    WhereCountAfterWrite(rows, k, SoftDeleted(rows[k], now), row => LiveOf(row, user));
  }

  // ---------------------------------------------------------------------------
  // Unique titles

  /** A notebook that blocks `title` for `user`: live, the user's, with that title, and not
      the notebook `self` being renamed. */
  predicate Blocks(row: Row, user: Value, title: string, self: Option<Value>) {
    LiveOf(row, user) && Has(row, "title", Str(title)) && (self.None? || !Has(row, "id", self.value))
  }

  predicate Taken(rows: seq<Row>, user: Value, title: string, self: Option<Value>) {
    exists i :: 0 <= i < |rows| && Blocks(rows[i], user, title, self)
  }

  /** The duplicate-title query, `.first()` of the blocking notebooks. */
  function FirstBlocking(rows: seq<Row>, user: Value, title: string, self: Option<Value>): (r: Option<nat>)
    ensures r.Some? <==> Taken(rows, user, title, self)
  {
    var r := FirstWhere(rows, row => Blocks(row, user, title, self));
    assert r.Some? ==> Blocks(rows[r.value], user, title, self);
    r
  }

  /** `f"{base_title}({counter})"` */
  function Numbered(base: string, k: nat): (t: string)
    ensures |t| > |base|
  {
    base + "(" + NatToString(k) + ")"
  }

  lemma NumberedInjective(base: string, j: nat, k: nat)
    requires Numbered(base, j) == Numbered(base, k)
    ensures j == k
  {
    var a := Numbered(base, j);
    assert NatToString(j) == a[|base| + 1..|a| - 1];
    assert NatToString(k) == Numbered(base, k)[|base| + 1..|a| - 1];
    NatToStringValue(j);
    NatToStringValue(k);
  }

  /** The title the loop settles on: the base if free, else the first free numbered one. */
  ghost predicate IsFirstFree(rows: seq<Row>, user: Value, base: string, self: Option<Value>, title: string) {
    && !Taken(rows, user, title, self)
    && (title == base ||
        (Taken(rows, user, base, self) &&
         exists k :: k >= 1 && title == Numbered(base, k) && forall j :: 1 <= j < k ==> Taken(rows, user, Numbered(base, j), self)))
  }

  /** There is one such title. */
  lemma FirstFreeUnique(rows: seq<Row>, user: Value, base: string, self: Option<Value>, t1: string, t2: string)
    requires IsFirstFree(rows, user, base, self, t1) && IsFirstFree(rows, user, base, self, t2)
    ensures t1 == t2
  {
    if t1 != base && t2 != base {
      var k1 :| k1 >= 1 && t1 == Numbered(base, k1) && forall j :: 1 <= j < k1 ==> Taken(rows, user, Numbered(base, j), self);
      var k2 :| k2 >= 1 && t2 == Numbered(base, k2) && forall j :: 1 <= j < k2 ==> Taken(rows, user, Numbered(base, j), self);
    }
  }

  /** The titles of the blocking notebooks: at most one per row. */
  ghost function BlockedTitles(rows: seq<Row>, user: Value, self: Option<Value>): (titles: set<string>)
    ensures |titles| <= |rows|
  {
    if rows == [] then {}
    else
      var init := BlockedTitles(rows[..|rows| - 1], user, self);
      var last := rows[|rows| - 1];
      if LiveOf(last, user) && "title" in last && last["title"].Str? && (self.None? || !Has(last, "id", self.value))
      then init + {last["title"].s} else init
  }

  lemma {:induction false} TakenIsBlocked(rows: seq<Row>, user: Value, title: string, self: Option<Value>)
    requires Taken(rows, user, title, self)
    ensures title in BlockedTitles(rows, user, self)
    decreases |rows|
  {
    var i :| 0 <= i < |rows| && Blocks(rows[i], user, title, self);
    if i < |rows| - 1 {
      assert rows[..|rows| - 1][i] == rows[i];
      TakenIsBlocked(rows[..|rows| - 1], user, title, self);
    }
  }

  /** The first `n` numbered titles. */
  ghost function NumberedUpTo(base: string, n: nat): set<string> {
    set j | 1 <= j <= n :: Numbered(base, j)
  }

  lemma {:induction false} NumberedUpToSize(base: string, n: nat)
    ensures |NumberedUpTo(base, n)| == n
    decreases n
  {
    if n > 0 {
      NumberedUpToSize(base, n - 1);
      assert NumberedUpTo(base, n) == NumberedUpTo(base, n - 1) + {Numbered(base, n)};
      if Numbered(base, n) in NumberedUpTo(base, n - 1) {
        var j :| 1 <= j <= n - 1 && Numbered(base, n) == Numbered(base, j);
        NumberedInjective(base, n, j);
      }
    }
  }

  lemma {:induction false} SubsetCardinality<T>(a: set<T>, b: set<T>)
    requires a <= b
    ensures |a| <= |b|
    decreases |a|
  {
    if a != {} {
      var x :| x in a;
      SubsetCardinality(a - {x}, b - {x});
    }
  }

  /** Every attempt the loop makes is a taken title, so it makes at most |rows| + 1. */
  lemma AttemptsBounded(rows: seq<Row>, user: Value, base: string, self: Option<Value>, counter: nat)
    requires Taken(rows, user, base, self)
    requires forall j :: 1 <= j < counter ==> Taken(rows, user, Numbered(base, j), self)
    ensures counter <= |rows|
  {
    var n := if counter == 0 then 0 else counter - 1;
    var numbered := NumberedUpTo(base, n);
    var blocked := BlockedTitles(rows, user, self);
    NumberedUpToSize(base, n);
    forall t | t in numbered
      ensures t in blocked
    {
      TakenIsBlocked(rows, user, t, self);
    }
    TakenIsBlocked(rows, user, base, self);
    SubsetCardinality(numbered + {base}, blocked);
  }

  /** The `while ... .first()` loop of `create_with_owner` and `update_notebook`. */
  method UniqueTitle(rows: seq<Row>, user: Value, base: string, self: Option<Value>) returns (title: string)
    ensures IsFirstFree(rows, user, base, self, title)
  {
    title := base;
    var counter: nat := 1;
    while FirstBlocking(rows, user, title, self).Some?
      invariant counter >= 1
      invariant counter > 1 ==> Taken(rows, user, base, self)
      invariant forall j :: 1 <= j < counter - 1 ==> Taken(rows, user, Numbered(base, j), self)
      invariant title == if counter == 1 then base else Numbered(base, counter - 1)
      invariant counter <= |rows| + 1
      decreases |rows| + 1 - counter
    {
      AttemptsBounded(rows, user, base, self, counter);
      title := Numbered(base, counter);
      counter := counter + 1;
    }
    if title != base {
      assert forall j :: 1 <= j < counter - 1 ==> Taken(rows, user, Numbered(base, j), self);
    }
  }

  /** Notebooks of other users and deleted ones never block a title. */
  lemma OthersNeverBlock(rows: seq<Row>, extra: Row, user: Value, title: string, self: Option<Value>)
    requires !LiveOf(extra, user)
    ensures Taken(rows + [extra], user, title, self) <==> Taken(rows, user, title, self)
  {
    var all := rows + [extra];
    if Taken(all, user, title, self) {
      var i :| 0 <= i < |all| && Blocks(all[i], user, title, self);
      assert i < |rows| && all[i] == rows[i];
    }
    if Taken(rows, user, title, self) {
      var i :| 0 <= i < |rows| && Blocks(rows[i], user, title, self);
      assert all[i] == rows[i];
    }
  }

  /** Renaming a notebook to the title it already has keeps that title, provided no other
      live notebook of the user has it. */
  lemma OwnTitleKept(rows: seq<Row>, k: nat, user: Value, title: string)
    requires k < |rows| && "id" in rows[k]
    requires forall i :: 0 <= i < |rows| && i != k ==> !Blocks(rows[i], user, title, None)
    requires forall i :: 0 <= i < |rows| && i != k ==> !Has(rows[i], "id", rows[k]["id"])
    ensures !Taken(rows, user, title, Some(rows[k]["id"]))
  {
  }

  /** Live titles are unique per user. */
  predicate UniqueLiveTitles(rows: seq<Row>) {
    forall i, j :: 0 <= i < j < |rows| && "user_id" in rows[i] && "title" in rows[i] && rows[i]["title"].Str? ==>
      !(LiveOf(rows[i], rows[i]["user_id"]) && LiveOf(rows[j], rows[i]["user_id"]) && Has(rows[j], "title", rows[i]["title"]))
  }

  /** Adding a live notebook under the first free title keeps the live titles unique. */
  lemma CreateKeepsTitlesUnique(rows: seq<Row>, row: Row, user: Value, base: string)
    requires UniqueLiveTitles(rows) && "title" in row && row["title"].Str?
    requires IsFirstFree(rows, user, base, None, row["title"].s) && Has(row, "user_id", user)
    ensures UniqueLiveTitles(rows + [row])
  {
    var all: seq<Row> := rows + [row];
    forall i, j | 0 <= i < j < |all| && "user_id" in all[i] && "title" in all[i] && all[i]["title"].Str?
      ensures !(LiveOf(all[i], all[i]["user_id"]) && LiveOf(all[j], all[i]["user_id"]) && Has(all[j], "title", all[i]["title"]))
    {
      assert all[i] == rows[i];
      if j < |rows| {
        assert all[j] == rows[j];
      }
    }
  }

  // ---------------------------------------------------------------------------
  // Tags
  //
  // The session does not flush before a query, so each name is looked up among the tags
  // stored before the loop (`stored`); a tag added for an earlier name of the same list is
  // not seen, and a new name given twice adds two tags.

  predicate TagOf(row: Row, name: string, user: Value) {
    Has(row, "name", Str(name)) && Has(row, "user_id", user)
  }

  /** The key of a tag row, as attached to the notebook. */
  function TagKey(row: Row): Value {
    if "id" in row then row["id"] else Null
  }

  /** The tag table and the keys attached, after resolving names left to right. */
  datatype Resolution = Resolution(rows: seq<Row>, nextId: nat, ids: seq<Value>)

  /** How many of `names` have no tag of `user` among `stored`, repeats counted. */
  function Missing(stored: seq<Row>, names: seq<string>, user: Value): (n: nat)
    ensures n <= |names|
    ensures n == 0 <==> forall i :: 0 <= i < |names| ==> FirstWhere(stored, row => TagOf(row, names[i], user)).Some?
    decreases |names|
  {
    if names == [] then 0
    else
      var rest := Missing(stored, names[1..], user);
      assert forall i :: 1 <= i < |names| ==> names[i] == names[1..][i - 1];
      (if FirstWhere(stored, row => TagOf(row, names[0], user)).Some? then 0 else 1) + rest
  }

  /** One name: the first stored tag of that name and user, or a new tag appended. */
  function ResolveOne(t: Records.Table, stored: seq<Row>, rows: seq<Row>, nextId: nat, name: string, user: Value, now: int): (r: Resolution)
    requires IsTagTable(t)
    ensures |r.ids| == 1 && |rows| <= |r.rows| && r.rows[..|rows|] == rows
    ensures var found := FirstWhere(stored, row => TagOf(row, name, user));
      found.Some? ==> r.rows == rows && r.nextId == nextId && r.ids == [TagKey(stored[found.value])]
    ensures FirstWhere(stored, row => TagOf(row, name, user)).None? ==>
      |r.rows| == |rows| + 1 && r.nextId == nextId + 1 && TagOf(r.rows[|rows|], name, user) && r.ids == [Int(nextId)]
  {
    match FirstWhere(stored, row => TagOf(row, name, user))
    case Some(k) => Resolution(rows, nextId, [TagKey(stored[k])])
    case None =>
      var row := t.NewRow(map["name" := Str(name), "user_id" := user], nextId, now);
      var all := rows + [row];
      assert all[..|rows|] == rows && all[|rows|] == row;
      Resolution(all, nextId + 1, [TagKey(row)])
  }

  /** Names resolve left to right against the stored tags; every name missing there
      appends one tag. */
  function ResolveTags(t: Records.Table, stored: seq<Row>, rows: seq<Row>, nextId: nat, names: seq<string>, user: Value, now: int): (r: Resolution)
    requires IsTagTable(t)
    ensures |r.ids| == |names| && |rows| <= |r.rows| && r.rows[..|rows|] == rows
    ensures |r.rows| == |rows| + Missing(stored, names, user) && r.nextId == nextId + Missing(stored, names, user)
    decreases |names|
  {
    if names == [] then Resolution(rows, nextId, [])
    else
      var one := ResolveOne(t, stored, rows, nextId, names[0], user, now);
      var rest := ResolveTags(t, stored, one.rows, one.nextId, names[1..], user, now);
      assert rest.rows[..|rows|] == one.rows[..|rows|];
      Resolution(rest.rows, rest.nextId, one.ids + rest.ids)
  }

  /** One turn of the tag loop: resolving the rest of the names after the first one. */
  lemma ResolveStep(t: Records.Table, stored: seq<Row>, rows: seq<Row>, nextId: nat, names: seq<string>, i: nat, user: Value, now: int, r: Resolution)
    requires IsTagTable(t) && i < |names| && |r.ids| == |names|
    requires ResolveTags(t, stored, rows, nextId, names[i..], user, now) == Resolution(r.rows, r.nextId, r.ids[i..])
    ensures var one := ResolveOne(t, stored, rows, nextId, names[i], user, now);
      && ResolveTags(t, stored, one.rows, one.nextId, names[i + 1..], user, now) == Resolution(r.rows, r.nextId, r.ids[i + 1..])
      && one.ids == [r.ids[i]]
  {
    var ns := names[i..];
    assert ns[0] == names[i] && ns[1..] == names[i + 1..];
    var one := ResolveOne(t, stored, rows, nextId, ns[0], user, now);
    var rest := ResolveTags(t, stored, one.rows, one.nextId, ns[1..], user, now);
    ResolveUnfold(t, stored, rows, nextId, ns, user, now);
    assert r.ids[i..] == one.ids + rest.ids;
    assert r.ids[i..][0] == r.ids[i] && r.ids[i..][1..] == r.ids[i + 1..];
  }

  lemma ResolveUnfold(t: Records.Table, stored: seq<Row>, rows: seq<Row>, nextId: nat, names: seq<string>, user: Value, now: int)
    requires IsTagTable(t) && names != []
    ensures var one := ResolveOne(t, stored, rows, nextId, names[0], user, now);
      var rest := ResolveTags(t, stored, one.rows, one.nextId, names[1..], user, now);
      ResolveTags(t, stored, rows, nextId, names, user, now) == Resolution(rest.rows, rest.nextId, one.ids + rest.ids)
  {
  }

  /** A tag found in some rows is still found once rows are appended. */
  lemma TagKeptByExtension(rows: seq<Row>, more: seq<Row>, name: string, user: Value)
    requires |rows| <= |more| && more[..|rows|] == rows
    requires FirstWhere(rows, row => TagOf(row, name, user)).Some?
    ensures FirstWhere(more, row => TagOf(row, name, user)).Some?
  {
    var k := FirstWhere(rows, row => TagOf(row, name, user)).value;
    assert more[k] == rows[k];
  }

  /** After one name is resolved, that name has a tag of the user. */
  lemma ResolvedNameExists(t: Records.Table, stored: seq<Row>, rows: seq<Row>, nextId: nat, name: string, user: Value, now: int)
    requires IsTagTable(t) && |stored| <= |rows| && rows[..|stored|] == stored
    ensures FirstWhere(ResolveOne(t, stored, rows, nextId, name, user, now).rows, row => TagOf(row, name, user)).Some?
  {
    var one := ResolveOne(t, stored, rows, nextId, name, user, now);
    if FirstWhere(stored, row => TagOf(row, name, user)).Some? {
      TagKeptByExtension(stored, one.rows, name, user);
    } else {
      assert TagOf(one.rows[|rows|], name, user);
    }
  }

  /** After resolving, every name has a tag of that user, provided the loop started from
      the stored table. */
  lemma {:induction false} ResolvedNamesExist(t: Records.Table, stored: seq<Row>, rows: seq<Row>, nextId: nat, names: seq<string>, user: Value, now: int)
    requires IsTagTable(t) && |stored| <= |rows| && rows[..|stored|] == stored
    ensures var r := ResolveTags(t, stored, rows, nextId, names, user, now);
      forall i :: 0 <= i < |names| ==> FirstWhere(r.rows, row => TagOf(row, names[i], user)).Some?
    decreases |names|
  {
    if names != [] {
      var one := ResolveOne(t, stored, rows, nextId, names[0], user, now);
      assert one.rows[..|stored|] == stored by {
        assert one.rows[..|rows|][..|stored|] == one.rows[..|stored|];
      }
      ResolvedNamesExist(t, stored, one.rows, one.nextId, names[1..], user, now);
      ResolvedNameExists(t, stored, rows, nextId, names[0], user, now);
      var r := ResolveTags(t, stored, rows, nextId, names, user, now);
      TagKeptByExtension(one.rows, r.rows, names[0], user);
      forall i | 1 <= i < |names|
        ensures FirstWhere(r.rows, row => TagOf(row, names[i], user)).Some?
      {
        assert names[i] == names[1..][i - 1];
      }
    }
  }

  /** Resolving the same names a second time, against the table the first call left,
      creates no tag. */
  lemma ResolveTwiceCreatesOnce(t: Records.Table, rows: seq<Row>, nextId: nat, names: seq<string>, user: Value, now: int)
    requires IsTagTable(t)
    ensures var once := ResolveTags(t, rows, rows, nextId, names, user, now);
      var twice := ResolveTags(t, once.rows, once.rows, once.nextId, names, user, now);
      twice.rows == once.rows && twice.nextId == once.nextId
  {
    var once := ResolveTags(t, rows, rows, nextId, names, user, now);
    assert rows[..|rows|] == rows;
    ResolvedNamesExist(t, rows, rows, nextId, names, user, now);
    var twice := ResolveTags(t, once.rows, once.rows, once.nextId, names, user, now);
    assert Missing(once.rows, names, user) == 0;
    assert twice.rows == twice.rows[..|once.rows|];
  }

  /** A name without a stored tag, given twice in one list, adds two tags of that name
      and attaches both. */
  lemma RepeatedNewNameAddsTwoTags(t: Records.Table, rows: seq<Row>, nextId: nat, name: string, user: Value, now: int)
    requires IsTagTable(t) && FirstWhere(rows, row => TagOf(row, name, user)).None?
    ensures var r := ResolveTags(t, rows, rows, nextId, [name, name], user, now);
      && |r.rows| == |rows| + 2 && r.nextId == nextId + 2
      && TagOf(r.rows[|rows|], name, user) && TagOf(r.rows[|rows| + 1], name, user)
      && r.ids == [Int(nextId), Int(nextId + 1)] && Dedup(r.ids) == r.ids
  {
    var one := ResolveOne(t, rows, rows, nextId, name, user, now);
    var two := ResolveOne(t, rows, one.rows, one.nextId, name, user, now);
    ResolveUnfold(t, rows, rows, nextId, [name, name], user, now);
    assert [name, name][1..] == [name];
    ResolveUnfold(t, rows, one.rows, one.nextId, [name], user, now);
    assert two.rows[..|one.rows|] == one.rows;
    assert two.rows[|rows|] == one.rows[|rows|];
    DedupOfDistinct([Int(nextId), Int(nextId + 1)]);
  }

  /** A name whose tag is stored, given twice in one list, adds nothing and resolves to that
      tag twice; the notebook is linked to it once, since `notebook_tags` is keyed by the
      (notebook, tag) pair. */
  lemma RepeatedStoredNameLinkedOnce(t: Records.Table, rows: seq<Row>, nextId: nat, name: string, user: Value, now: int)
    requires IsTagTable(t) && FirstWhere(rows, row => TagOf(row, name, user)).Some?
    ensures var r := ResolveTags(t, rows, rows, nextId, [name, name], user, now);
      var k := FirstWhere(rows, row => TagOf(row, name, user)).value;
      && k < |rows| && r.rows == rows && r.nextId == nextId
      && r.ids == [TagKey(rows[k]), TagKey(rows[k])]
      && Dedup(r.ids) == [TagKey(rows[k])]
  {
    ResolveUnfold(t, rows, rows, nextId, [name, name], user, now);
    assert [name, name][1..] == [name];
    ResolveUnfold(t, rows, rows, nextId, [name], user, now);
    var key := TagKey(rows[FirstWhere(rows, row => TagOf(row, name, user)).value]);
    assert [key][..0] == [];
    assert Dedup([key]) == [key];
    assert [key, key][..1] == [key];
    assert Dedup([key, key]) == [key];
  }

  // ---------------------------------------------------------------------------
  // The service

  /** `NotebookCreate`; `tags` None or empty attaches nothing. */
  datatype NotebookCreate = NotebookCreate(title: string, description: Value, folder: Value, tags: Option<seq<string>>)

  /** `NotebookUpdate`; None is a field the caller did not set. */
  datatype NotebookUpdate = NotebookUpdate(title: Option<string>, description: Option<Value>, folder: Option<Value>, tags: Option<seq<string>>)

  /** `obj_in.dict(exclude={"tags"})` with the unique title, and the owner. */
  function CreateData(c: NotebookCreate, title: string, user: Value): (data: map<string, Value>)
    ensures data.Keys == {"title", "description", "folder", "user_id"}
  {
    map["title" := Str(title), "description" := c.description, "folder" := c.folder, "user_id" := user]
  }

  /** `obj_in.dict(exclude_unset=True, exclude={"tags"})` with the unique title. */
  function NotebookUpdateData(u: NotebookUpdate, title: string): (data: map<string, Value>)
    ensures "title" in data <==> u.title.Some?
    ensures "description" in data <==> u.description.Some?
    ensures "folder" in data <==> u.folder.Some?
    ensures data.Keys <= {"title", "description", "folder"}
    ensures u.title.Some? ==> data["title"] == Str(title)
  {
    var a := if u.title.Some? then map["title" := Str(title)] else map[];
    var b := if u.description.Some? then a["description" := u.description.value] else a;
    if u.folder.Some? then b["folder" := u.folder.value] else b
  }

  function TitleOf(row: Row): string {
    if "title" in row && row["title"].Str? then row["title"].s else ""
  }

  class Notebooks {
    const notebooks: Records.Table
    const tags: Records.Table
    /** `notebook_tags`: the tag keys attached to each notebook key, in the order they were
        first appended; the table's key is the (notebook, tag) pair, so no key repeats. */
    var links: map<Value, seq<Value>>

    ghost predicate Valid()
      reads this, notebooks, tags
    {
      notebooks != tags && notebooks.Valid() && IsNotebookTable(notebooks) && tags.Valid() && IsTagTable(tags)
    }

    /** No notebook is linked to a tag twice. */
    ghost predicate LinksOnce()
      reads this
    {
      forall id :: id in links ==> Distinct(links[id])
    }

    constructor (notebooks: Records.Table, tags: Records.Table)
      requires notebooks != tags && notebooks.Valid() && IsNotebookTable(notebooks) && tags.Valid() && IsTagTable(tags)
      ensures Valid() && LinksOnce() && this.notebooks == notebooks && this.tags == tags && links == map[]
    {
      this.notebooks := notebooks;
      this.tags := tags;
      links := map[];
    }

    /** The tag loop: find each named tag among those stored before the loop, or add one,
        and collect its key. */
    method AttachTags(names: seq<string>, user: Value, now: int) returns (ids: seq<Value>)
      requires Valid()
      modifies tags
      ensures Valid()
      ensures var r := old(ResolveTags(tags, tags.rows, tags.rows, tags.nextId, names, user, now));
        ids == r.ids && tags.rows == r.rows && tags.nextId == r.nextId
    {
      var stored := tags.rows;
      ghost var r := ResolveTags(tags, stored, tags.rows, tags.nextId, names, user, now);
      assert names[0..] == names;
      ids := [];
      var i := 0;
      while i < |names|
        invariant 0 <= i <= |names| && Valid() && |r.ids| == |names|
        invariant ids == r.ids[..i]
        invariant ResolveTags(tags, stored, tags.rows, tags.nextId, names[i..], user, now) == Resolution(r.rows, r.nextId, r.ids[i..])
      {
        var id := AttachNext(stored, names, i, user, now, r);
        PrefixStep(r.ids, i);
        ids := ids + [id];
        i := i + 1;
      }
      assert r.ids[..|names|] == r.ids;
    }

    /** One turn of the tag loop. */
    method AttachNext(stored: seq<Row>, names: seq<string>, i: nat, user: Value, now: int, ghost r: Resolution) returns (id: Value)
      requires Valid() && i < |names| && |r.ids| == |names|
      requires ResolveTags(tags, stored, tags.rows, tags.nextId, names[i..], user, now) == Resolution(r.rows, r.nextId, r.ids[i..])
      modifies tags
      ensures Valid() && id == r.ids[i]
      ensures ResolveTags(tags, stored, tags.rows, tags.nextId, names[i + 1..], user, now) == Resolution(r.rows, r.nextId, r.ids[i + 1..])
    {
      ghost var rows, next := tags.rows, tags.nextId;
      id := AttachTag(stored, names[i], user, now);
      ResolveStep(tags, stored, rows, next, names, i, user, now, r);
    }

    /** One name of the tag loop: the query sees only `stored`. */
    method AttachTag(stored: seq<Row>, name: string, user: Value, now: int) returns (id: Value)
      requires Valid()
      modifies tags
      ensures Valid()
      ensures var r := old(ResolveOne(tags, stored, tags.rows, tags.nextId, name, user, now));
        [id] == r.ids && tags.rows == r.rows && tags.nextId == r.nextId
    {
      var found := FirstWhere(stored, row => TagOf(row, name, user));
      var row: Row;
      if found.Some? {
        row := stored[found.value];
      } else {
        var created := tags.Create(map["name" := Str(name), "user_id" := user], now);
        row := created.value;
      }
      id := TagKey(row);
    }

    /** `create_with_owner`: the notebook under its first free title, then its tags. */
    method CreateWithOwner(c: NotebookCreate, user: Value, now: int) returns (row: Row)
      requires Valid()
      modifies notebooks, tags, this
      ensures Valid()
      ensures old(LinksOnce()) ==> LinksOnce()
      ensures "title" in row && row["title"].Str? && IsFirstFree(old(notebooks.rows), user, c.title, None, row["title"].s)
      ensures row == notebooks.NewRow(CreateData(c, row["title"].s, user), old(notebooks.nextId), now)
      ensures notebooks.rows == old(notebooks.rows) + [row]
      ensures LiveOf(row, user)
      ensures c.tags.None? || c.tags.value == [] ==> tags.rows == old(tags.rows) && links == old(links)[row["id"] := []]
      ensures c.tags.Some? && c.tags.value != [] ==>
        var r := old(ResolveTags(tags, tags.rows, tags.rows, tags.nextId, c.tags.value, user, now));
        tags.rows == r.rows && links == old(links)[row["id"] := Dedup(r.ids)]
    {
      row := InsertNotebook(c, user, now);
      LinkNewTags(row["id"], c.tags, user, now);
    }

    /** The insert of `create_with_owner`. */
    method InsertNotebook(c: NotebookCreate, user: Value, now: int) returns (row: Row)
      requires Valid()
      modifies notebooks
      ensures Valid()
      ensures "title" in row && row["title"].Str? && IsFirstFree(old(notebooks.rows), user, c.title, None, row["title"].s)
      ensures row == notebooks.NewRow(CreateData(c, row["title"].s, user), old(notebooks.nextId), now)
      ensures notebooks.rows == old(notebooks.rows) + [row]
      ensures LiveOf(row, user) && "id" in row
    {
      var title := UniqueTitle(notebooks.rows, user, c.title, None);
      var created := notebooks.Create(CreateData(c, title, user), now);
      row := created.value;
    }

    /** The tags of `create_with_owner`: None or an empty list attaches nothing. A tag the
        list names twice is appended twice to `notebook.tags` but linked once. */
    method LinkNewTags(id: Value, names: Option<seq<string>>, user: Value, now: int)
      requires Valid()
      modifies tags, this
      ensures Valid() && notebooks.rows == old(notebooks.rows)
      ensures old(LinksOnce()) ==> LinksOnce()
      ensures names.None? || names.value == [] ==> tags.rows == old(tags.rows) && links == old(links)[id := []]
      ensures names.Some? && names.value != [] ==>
        var r := old(ResolveTags(tags, tags.rows, tags.rows, tags.nextId, names.value, user, now));
        tags.rows == r.rows && links == old(links)[id := Dedup(r.ids)]
    {
      var ids: seq<Value> := [];
      if names.Some? && names.value != [] {
        ids := AttachTags(names.value, user, now);
      }
      DedupMeaning(ids);
      links := links[id := Dedup(ids)];
    }

    /** `update_notebook` on the notebook at `k` */
    method UpdateNotebook(k: nat, u: NotebookUpdate, now: int) returns (updated: Row)
      requires Valid() && k < |notebooks.rows|
      modifies notebooks, tags, this
      ensures Valid()
      ensures old(LinksOnce()) ==> LinksOnce()
      ensures var before := old(notebooks.rows[k]);
        && updated == UpdatedRow(before, NotebookUpdateData(u, TitleOf(updated)))
        && (u.title.Some? ==> IsFirstFree(old(notebooks.rows), before["user_id"], u.title.value, Some(before["id"]), TitleOf(updated)))
      ensures notebooks.rows == old(notebooks.rows)[k := updated]
      ensures u.tags.None? ==> tags.rows == old(tags.rows) && links == old(links)
      ensures u.tags.Some? ==>
        var r := old(ResolveTags(tags, tags.rows, tags.rows, tags.nextId, u.tags.value, notebooks.rows[k]["user_id"], now));
        tags.rows == r.rows && links == old(links)[updated["id"] := Dedup(r.ids)]
    {
      var user := notebooks.rows[k]["user_id"];
      updated := UpdateRow(k, u);
      if u.tags.Some? {
        ReplaceTags(updated["id"], u.tags.value, user, now);
      }
    }

    /** The column part of `update_notebook`: a new title is made unique among the owner's
        other notebooks; the tags and the links are untouched. */
    method UpdateRow(k: nat, u: NotebookUpdate) returns (updated: Row)
      requires Valid() && k < |notebooks.rows|
      modifies notebooks
      ensures Valid() && tags.rows == old(tags.rows) && tags.nextId == old(tags.nextId)
      ensures var before := old(notebooks.rows[k]);
        && updated == UpdatedRow(before, NotebookUpdateData(u, TitleOf(updated)))
        && updated["id"] == before["id"] && updated["user_id"] == before["user_id"]
        && (u.title.Some? ==> IsFirstFree(old(notebooks.rows), before["user_id"], u.title.value, Some(before["id"]), TitleOf(updated)))
      ensures notebooks.rows == old(notebooks.rows)[k := updated]
    {
      var before := notebooks.rows[k];
      var title := "";
      if u.title.Some? {
        title := UniqueTitle(notebooks.rows, before["user_id"], u.title.value, Some(before["id"]));
      }
      updated := notebooks.Update(k, Dict(NotebookUpdateData(u, title)));
    }

    /** The tags of `update_notebook`: the notebook's links are cleared, then set to the
        resolved tags in order, each linked once. */
    method ReplaceTags(id: Value, names: seq<string>, user: Value, now: int)
      requires Valid()
      modifies tags, this
      ensures Valid() && notebooks.rows == old(notebooks.rows)
      ensures old(LinksOnce()) ==> LinksOnce()
      ensures var r := old(ResolveTags(tags, tags.rows, tags.rows, tags.nextId, names, user, now));
        tags.rows == r.rows && links == old(links)[id := Dedup(r.ids)]
    {
      var ids := AttachTags(names, user, now);
      DedupMeaning(ids);
      links := links[id := Dedup(ids)];
    }

    /** `soft_delete` on the notebook at `k` */
    method SoftDelete(k: nat, now: int) returns (updated: Row)
      requires Valid() && k < |notebooks.rows|
      modifies notebooks
      ensures Valid()
      ensures updated == SoftDeleted(old(notebooks.rows[k]), now)
      ensures notebooks.rows == old(notebooks.rows)[k := updated]
    {
      updated := notebooks.Update(k, Dict(map["deleted" := Bool(true), "deleted_at" := Time(now)]));
    }
  }
}
