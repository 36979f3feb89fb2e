/**
 * The record store behind the CRUD services (backend/app/services/base.py). A table is
 * the list of its rows in the database's scan order; a row maps every serialised column
 * of the model to its value, so a key that is not a column is visibly absent from it.
 */
module Records {
  import opened Wrappers
  import opened Seqs

  /** A column value. Enum members are stored as their string values, JSON as its text,
      timestamps as clock readings. */
  datatype Value = Null | Str(s: string) | Int(i: int) | Real(r: real) | Bool(b: bool) | Time(t: int) | Json(doc: string)

  type Row = map<string, Value>

  predicate Has(row: Row, field: string, v: Value) {
    field in row && row[field] == v
  }

  // ---------------------------------------------------------------------------
  // Queries

  /** `.filter(cond).first()`: the position of the first row meeting `cond`. */
  function FirstWhere(rows: seq<Row>, cond: Row -> bool): (r: Option<nat>)
    ensures r.Some? ==> r.value < |rows| && cond(rows[r.value])
    ensures r.Some? ==> forall j :: 0 <= j < r.value ==> !cond(rows[j])
    ensures r.None? <==> forall j :: 0 <= j < |rows| ==> !cond(rows[j])
  {
    if rows == [] then None
    else if cond(rows[0]) then Some(0)
    else
      var rest := FirstWhere(rows[1..], cond);
      assert forall j :: 1 <= j < |rows| ==> rows[j] == rows[1..][j - 1];
      match rest
      case None => None
      case Some(i) => Some(i + 1)
  }

  /** `.filter(field == v).first()` */
  function IndexOf(rows: seq<Row>, field: string, v: Value): (r: Option<nat>)
    ensures r.Some? ==> r.value < |rows| && Has(rows[r.value], field, v)
    ensures r.Some? ==> forall j :: 0 <= j < r.value ==> !Has(rows[j], field, v)
    ensures r.None? <==> forall j :: 0 <= j < |rows| ==> !Has(rows[j], field, v)
  {
    FirstWhere(rows, row => Has(row, field, v))
  }

  /** Writing fields other than `field` leaves every lookup by `field` where it was. */
  lemma IndexOfAfterUpdate(rows: seq<Row>, k: nat, data: map<string, Value>, field: string, v: Value)
    requires k < |rows| && field !in data
    ensures IndexOf(rows[k := UpdatedRow(rows[k], data)], field, v) == IndexOf(rows, field, v)
  {
    var after := rows[k := UpdatedRow(rows[k], data)];
    forall j | 0 <= j < |rows| ensures Has(after[j], field, v) <==> Has(rows[j], field, v) {
      if j == k {
        UpdatedRowFields(rows[k], data, field);
      }
    }
    IndexOfSameMatches(after, rows, field, v);
  }

  /** Two tables whose rows match `field == v` at the same places agree on the lookup. */
  lemma IndexOfSameMatches(a: seq<Row>, b: seq<Row>, field: string, v: Value)
    requires |a| == |b|
    requires forall j :: 0 <= j < |a| ==> (Has(a[j], field, v) <==> Has(b[j], field, v))
    ensures IndexOf(a, field, v) == IndexOf(b, field, v)
  {
  }

  /** `.filter(cond).all()`: the rows meeting `cond`, in scan order. */
  function Where(rows: seq<Row>, cond: Row -> bool): (r: seq<Row>)
    ensures |r| <= |rows|
    ensures forall x :: x in r <==> x in rows && cond(x)
  {
    if rows == [] then []
    else
      var init := Where(rows[..|rows| - 1], cond);
      var last := rows[|rows| - 1];
      assert rows == rows[..|rows| - 1] + [last];
      if cond(last) then init + [last] else init
  }

  /** Where a value sorts under ORDER BY: PostgreSQL puts NULL last when ascending and
      first when descending. */
  datatype SortKey = NullsFirst | At(v: real) | NullsLast

  predicate KeyLe(a: SortKey, b: SortKey) {
    a.NullsFirst? || b.NullsLast? || (a.At? && b.At? && a.v <= b.v)
  }

  predicate SortedBy(s: seq<Row>, key: Row -> SortKey) {
    forall i, k :: 0 <= i < k < |s| ==> KeyLe(key(s[i]), key(s[k]))
  }

  /** One step of a stable insertion sort: `x` goes behind every row whose key is not
      greater than its own. */
  function Insert(x: Row, s: seq<Row>, key: Row -> SortKey): (r: seq<Row>)
    ensures multiset(r) == multiset(s) + multiset{x}
    ensures forall y :: y in r <==> y in s || y == x
    ensures |r| == |s| + 1
  {
    if s == [] then [x]
    else if KeyLe(key(s[0]), key(x)) then
      assert s == [s[0]] + s[1..];
      [s[0]] + Insert(x, s[1..], key)
    else [x] + s
  }

  /** `.order_by(column)`. SQL leaves the order of equal keys open; this keeps scan order. */
  function SortBy(rows: seq<Row>, key: Row -> SortKey): (r: seq<Row>)
    ensures multiset(r) == multiset(rows)
    ensures |r| == |rows|
  {
    if rows == [] then []
    else
      assert rows == rows[..|rows| - 1] + [rows[|rows| - 1]];
      Insert(rows[|rows| - 1], SortBy(rows[..|rows| - 1], key), key)
  }

  lemma ConsSorted(x: Row, s: seq<Row>, key: Row -> SortKey)
    requires SortedBy(s, key) && forall y :: y in s ==> KeyLe(key(x), key(y))
    ensures SortedBy([x] + s, key)
  {
    var r := [x] + s;
    forall a, b | 0 <= a < b < |r|
      ensures KeyLe(key(r[a]), key(r[b]))
    {
      assert r[b] == s[b - 1];
      if a > 0 {
        assert r[a] == s[a - 1];
      } else {
        assert s[b - 1] in s;
      }
    }
  }

  lemma {:induction false} InsertSorted(x: Row, s: seq<Row>, key: Row -> SortKey)
    requires SortedBy(s, key)
    ensures SortedBy(Insert(x, s, key), key)
    decreases |s|
  {
    if s != [] {
      var tail := s[1..];
      assert SortedBy(tail, key) by {
        forall a, b | 0 <= a < b < |tail|
          ensures KeyLe(key(tail[a]), key(tail[b]))
        {
          assert tail[a] == s[a + 1] && tail[b] == s[b + 1];
        }
      }
      assert forall y :: y in s ==> KeyLe(key(s[0]), key(y)) by {
        forall y | y in s
          ensures KeyLe(key(s[0]), key(y))
        {
          var k :| 0 <= k < |s| && s[k] == y;
        }
      }
      if KeyLe(key(s[0]), key(x)) {
        InsertSorted(x, tail, key);
        assert forall y :: y in tail ==> y in s;
        ConsSorted(s[0], Insert(x, tail, key), key);
      } else {
        ConsSorted(x, s, key);
      }
    }
  }

  /** The result of `SortBy` is ordered by the key. */
  lemma {:induction false} SortByIsSorted(rows: seq<Row>, key: Row -> SortKey)
    ensures SortedBy(SortBy(rows, key), key)
    decreases |rows|
  {
    if rows != [] {
      SortByIsSorted(rows[..|rows| - 1], key);
      InsertSorted(rows[|rows| - 1], SortBy(rows[..|rows| - 1], key), key);
    }
  }

  /** `.filter(cond).order_by(key).offset(skip).limit(limit).all()` */
  function Listing(rows: seq<Row>, cond: Row -> bool, key: Row -> SortKey, skip: nat, limit: nat): (r: seq<Row>)
    ensures |r| <= limit
    ensures forall x :: x in r ==> x in rows && cond(x)
  {
    var sorted := SortBy(Where(rows, cond), key);
    assert forall x :: x in sorted ==> x in Where(rows, cond) by {
      forall x | x in sorted
        ensures x in Where(rows, cond)
      {
        assert x in multiset(sorted);
      }
    }
    Window(sorted, skip, limit)
  }

  /** A listing is one window of the filtered rows sorted by the key. */
  lemma ListingSorted(rows: seq<Row>, cond: Row -> bool, key: Row -> SortKey, skip: nat, limit: nat)
    ensures SortedBy(Listing(rows, cond, key, skip, limit), key)
    ensures |Where(rows, cond)| <= skip ==> Listing(rows, cond, key, skip, limit) == []
  {
    var sorted := SortBy(Where(rows, cond), key);
    SortByIsSorted(Where(rows, cond), key);
    var w := Window(sorted, skip, limit);
    forall a, b | 0 <= a < b < |w|
      ensures KeyLe(key(w[a]), key(w[b]))
    {
      assert w[a] == sorted[skip + a] && w[b] == sorted[skip + b];
    }
  }

  // ---------------------------------------------------------------------------
  // Updates

  /** What `update` reads from its input: a dict as it is, a schema only for the fields
      the caller set explicitly (`obj_in.dict(exclude_unset=True)`). */
  datatype UpdateInput = Dict(entries: map<string, Value>) | Schema(values: map<string, Value>, explicitlySet: set<string>)

  function UpdateData(input: UpdateInput): (data: map<string, Value>)
    ensures input.Dict? ==> data == input.entries
    ensures input.Schema? ==> data.Keys == input.values.Keys * input.explicitlySet
    ensures input.Schema? ==> forall f :: f in data ==> data[f] == input.values[f]
  {
    match input
    case Dict(entries) => entries
    case Schema(values, explicitlySet) => map f | f in values && f in explicitlySet :: values[f]
  }

  /** The row after `for field in obj_data: if field in update_data: setattr(...)`. */
  function UpdatedRow(row: Row, data: map<string, Value>): Row {
    map f | f in row :: if f in data then data[f] else row[f]
  }

  /** A key of the update data that is not a serialised field of the row is dropped:
      the row keeps exactly its columns, and a column is written iff the data names it. */
  lemma UpdatedRowFields(row: Row, data: map<string, Value>, f: string)
    ensures UpdatedRow(row, data).Keys == row.Keys
    ensures f in row && f in data ==> UpdatedRow(row, data)[f] == data[f]
    ensures f in row && f !in data ==> UpdatedRow(row, data)[f] == row[f]
  {
  }

  /** Update data made only of unknown keys leaves the row as it was. */
  lemma UpdateWithUnknownKeys(row: Row, data: map<string, Value>)
    requires forall f :: f in data ==> f !in row
    ensures UpdatedRow(row, data) == row
  {
    var r := UpdatedRow(row, data);
    assert r.Keys == row.Keys;
    assert forall f :: f in r ==> r[f] == row[f];
  }

  /** Applying the same update twice changes nothing further. */
  lemma UpdateIdempotent(row: Row, data: map<string, Value>)
    ensures UpdatedRow(UpdatedRow(row, data), data) == UpdatedRow(row, data)
  {
    var once := UpdatedRow(row, data);
    var twice := UpdatedRow(once, data);
    assert twice.Keys == once.Keys;
    assert forall f :: f in twice ==> twice[f] == once[f];
  }

  /** A schema field the caller left unset is never written, whatever its default value. */
  lemma UnsetSchemaFieldKept(row: Row, values: map<string, Value>, explicitlySet: set<string>, f: string)
    requires f in row && f !in explicitlySet
    ensures UpdatedRow(row, UpdateData(Schema(values, explicitlySet)))[f] == row[f]
  {
  }

  /** The rows left after removing the one at `k`. */
  function Without(rows: seq<Row>, k: nat): (r: seq<Row>)
    requires k < |rows|
    ensures |r| == |rows| - 1
    ensures forall j :: 0 <= j < k ==> r[j] == rows[j]
    ensures forall j :: k <= j < |r| ==> r[j] == rows[j + 1]
  {
    rows[..k] + rows[k + 1..]
  }

  /** One table and the model class it stores. */
  class Table {
    var rows: seq<Row>
    /** The next value of the generated primary key (`uuid.uuid4()` in the source). */
    var nextId: nat
    /** The primary-key column: "id", or "uid" for users. */
    const key: string
    /** The serialised columns of the model. */
    const columns: set<string>
    /** The names the model's constructor accepts as keywords: its columns, its
        relationships and the declarative base's own attributes such as `metadata`. */
    const attributes: set<string>
    /** Column defaults other than the generated key and the two timestamps. */
    const defaults: map<string, Value>

    ghost predicate Valid()
      reads this
    {
      && key in columns && columns <= attributes && defaults.Keys <= columns
      && forall i :: 0 <= i < |rows| ==> rows[i].Keys == columns
    }

    constructor (key: string, columns: set<string>, attributes: set<string>, defaults: map<string, Value>)
      requires key in columns && columns <= attributes && defaults.Keys <= columns
      ensures Valid() && rows == [] && nextId == 0
      ensures this.key == key && this.columns == columns && this.attributes == attributes && this.defaults == defaults
    {
      this.key := key;
      this.columns := columns;
      this.attributes := attributes;
      this.defaults := defaults;
      rows := [];
      nextId := 0;
    }

    /** The value a column takes when the constructor is not given one. */
    function Default(c: string, id: nat, now: int): Value {
      if c == key && key == "id" then Int(id)
      else if c == "created_at" || c == "updated_at" then Time(now)
      else if c in defaults then defaults[c]
      else Null
    }

    /** `self.model(**data)` as stored: the given columns, defaults for the rest. */
    function NewRow(data: map<string, Value>, id: nat, now: int): (r: Row)
      ensures r.Keys == columns
      ensures forall c :: c in columns && c in data ==> r[c] == data[c]
      ensures forall c :: c in columns && c !in data ==> r[c] == Default(c, id, now)
    {
      map c | c in columns :: if c in data then data[c] else Default(c, id, now)
    }

    /** `get`: the first row whose primary key is `id`. */
    function Get(id: Value): (r: Option<Row>)
      reads this
      ensures r.Some? <==> exists i :: 0 <= i < |rows| && Has(rows[i], key, id)
      ensures r.Some? ==> r.value in rows && Has(r.value, key, id)
    {
      match IndexOf(rows, key, id)
      case None => None
      case Some(i) => Some(rows[i])
    }

    /** Where `get` found its row. */
    function Find(id: Value): (k: Option<nat>)
      reads this
      ensures k == IndexOf(rows, key, id)
      ensures k.Some? ==> k.value < |rows| && Get(id) == Some(rows[k.value])
      ensures k.None? <==> Get(id).None?
    {
      IndexOf(rows, key, id)
    }

    /** `get_multi`: OFFSET `skip` then LIMIT `limit` over the scan order. */
    function GetMulti(skip: nat, limit: nat): (r: seq<Row>)
      reads this
      ensures |r| <= limit
      ensures forall j :: 0 <= j < |r| ==> skip + j < |rows| && r[j] == rows[skip + j]
      ensures skip + limit <= |rows| ==> |r| == limit
    {
      Window(rows, skip, limit)
    }

    /** `create`: a keyword the model does not know makes the constructor raise
        TypeError before anything is added; otherwise one row is appended. */
    method Create(data: map<string, Value>, now: int) returns (r: Result<Row, string>)
      requires Valid()
      modifies this
      ensures Valid()
      ensures r.Failure? <==> !(data.Keys <= attributes)
      ensures r.Failure? ==> rows == old(rows) && nextId == old(nextId)
      ensures r.Success? ==> r.value == NewRow(data, old(nextId), now)
      ensures r.Success? ==> rows == old(rows) + [r.value] && nextId == old(nextId) + 1
    {
      if !(data.Keys <= attributes) {
        return Failure("TypeError: invalid keyword argument");
      }
      var row := NewRow(data, nextId, now);
      rows := rows + [row];
      nextId := nextId + 1;
      r := Success(row);
    }

    /** `update` on the row at `k`: every serialised field named in the update data is
        assigned, every other key of the data is ignored. */
    method Update(k: nat, input: UpdateInput) returns (updated: Row)
      requires Valid() && k < |rows|
      modifies this
      ensures Valid() && nextId == old(nextId)
      ensures updated == UpdatedRow(old(rows[k]), UpdateData(input))
      ensures rows == old(rows)[k := updated]
    {
      var data := UpdateData(input);
      var row := rows[k];
      var pending := row.Keys;
      updated := row;
      while pending != {}
        invariant rows == old(rows) && nextId == old(nextId)
        invariant pending <= row.Keys
        invariant updated.Keys == row.Keys
        invariant forall f :: f in row ==> updated[f] == if f !in pending && f in data then data[f] else row[f]
        decreases |pending|
      {
        var f := Pick(pending);
        if f in data {
          updated := updated[f := data[f]];
        }
        pending := pending - {f};
      }
      rows := rows[k := updated];
    }

    /** `remove`: `db.get` by primary key, then `db.delete`, which raises on None. */
    method Remove(id: Value) returns (r: Result<Row, string>)
      requires Valid()
      modifies this
      ensures Valid() && nextId == old(nextId)
      ensures r.Failure? <==> old(Get(id)).None?
      ensures r.Failure? ==> rows == old(rows)
      ensures r.Success? ==> old(Find(id)).Some?
      ensures r.Success? ==> r.value == old(rows)[old(Find(id)).value]
      ensures r.Success? ==> rows == Without(old(rows), old(Find(id)).value)
    {
      var k := Find(id);
      if k.None? {
        return Failure("UnmappedInstanceError");
      }
      r := Success(rows[k.value]);
      rows := Without(rows, k.value);
    }
  }

  /** A row just created is what `get` returns for its key, when no earlier row has it. */
  lemma CreatedRowIsFound(rows: seq<Row>, key: string, row: Row, id: Value)
    requires Has(row, key, id)
    requires forall i :: 0 <= i < |rows| ==> !Has(rows[i], key, id)
    ensures FirstWhere(rows + [row], r => Has(r, key, id)) == Some(|rows|)
  {
    var all := rows + [row];
    assert forall i :: 0 <= i < |rows| ==> all[i] == rows[i];
    assert all[|rows|] == row;
  }
}
