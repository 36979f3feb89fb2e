/**
 * The user service (backend/app/services/user.py) over the `users` table of
 * backend/app/models/user.py, whose primary key is the Firebase uid and whose email is
 * unique.
 */
module UserService {
  import opened Wrappers
  import opened Records

  const UserColumns: set<string> := {"uid", "email", "name", "picture", "email_verified", "created_at", "updated_at"}

  const UserAttributes: set<string> := UserColumns + {"notebooks", "metadata"}

  const UserDefaults: map<string, Value> := map["email_verified" := Bool(false)]

  predicate IsUserTable(t: Records.Table) {
    t.key == "uid" && t.columns == UserColumns && t.attributes == UserAttributes && t.defaults == UserDefaults
  }

  /** `user_data.get(key, default)` */
  function Get(d: map<string, Value>, key: string, default: Value): Value {
    if key in d then d[key] else default
  }

  /** The keywords `create` passes to `User(...)`: the uid, three optional fields and
      `email_verified`, False unless given. */
  function CreateFields(d: map<string, Value>): (data: map<string, Value>)
    requires "uid" in d
    ensures data.Keys == {"uid", "email", "name", "picture", "email_verified"}
    ensures data["uid"] == d["uid"]
    ensures "email_verified" !in d ==> data["email_verified"] == Bool(false)
  {
    map["uid" := d["uid"], "email" := Get(d, "email", Null), "name" := Get(d, "name", Null),
        "picture" := Get(d, "picture", Null), "email_verified" := Get(d, "email_verified", Bool(false))]
  }

  /** A new row would break the primary key or the unique email (NULL emails never clash). */
  predicate Clashes(rows: seq<Row>, row: Row) {
    exists i :: 0 <= i < |rows| &&
      (("uid" in row && Has(rows[i], "uid", row["uid"])) ||
       ("email" in row && row["email"] != Null && Has(rows[i], "email", row["email"])))
  }

  /** The fields `update` writes: every column named in the data except the uid. Keys that
      name no column are not stored. */
  function UpdateFields(d: map<string, Value>): (data: map<string, Value>)
    ensures "uid" !in data && forall f :: f in data <==> f in d && f != "uid"
  {
    d - {"uid"}
  }

  /** `update` never changes the uid, writes every other column the data names, and
      leaves the rest of the row as it was. */
  lemma UpdateKeepsUid(row: Row, d: map<string, Value>)
    requires row.Keys == UserColumns
    ensures var r := UpdatedRow(row, UpdateFields(d));
      && r.Keys == UserColumns && r["uid"] == row["uid"]
      && (forall f :: f in UserColumns && f != "uid" && f in d ==> r[f] == d[f])
      && (forall f :: f in UserColumns && f !in d ==> r[f] == row[f])
  {
  }

  /** The state of one `update` or `create`: None for an unknown uid. */
  datatype Outcome = Found(row: Row) | NotFound | Raised(error: string)

  class Users {
    const table: Records.Table

    ghost predicate Valid()
      reads this, table
    {
      table.Valid() && IsUserTable(table)
    }

    constructor (table: Records.Table)
      requires table.Valid() && IsUserTable(table)
      ensures Valid() && this.table == table
    {
      this.table := table;
    }

    /** `get_by_uid` */
    function GetByUid(uid: Value): (r: Option<Row>)
      reads this, table
      requires Valid()
      ensures r.Some? ==> Has(r.value, "uid", uid) && r.value in table.rows
      ensures r.None? <==> forall i :: 0 <= i < |table.rows| ==> !Has(table.rows[i], "uid", uid)
    {
      table.Get(uid)
    }

    /** `create`: a missing uid raises KeyError; a clash raises IntegrityError and the
        transaction leaves the table as it was; otherwise the row is added. */
    method Create(d: map<string, Value>, now: int) returns (r: Outcome)
      requires Valid()
      modifies table
      ensures Valid()
      ensures "uid" !in d ==> r == Raised("KeyError") && table.rows == old(table.rows)
      ensures "uid" in d && Clashes(old(table.rows), table.NewRow(CreateFields(d), old(table.nextId), now)) ==>
        r == Raised("IntegrityError") && table.rows == old(table.rows)
      ensures "uid" in d && !Clashes(old(table.rows), table.NewRow(CreateFields(d), old(table.nextId), now)) ==>
        && r == Found(table.NewRow(CreateFields(d), old(table.nextId), now))
        && table.rows == old(table.rows) + [r.row]
    {
      if "uid" !in d {
        return Raised("KeyError");
      }
      var fields := CreateFields(d);
      var row := table.NewRow(fields, table.nextId, now);
      if Clashes(table.rows, row) {
        return Raised("IntegrityError");
      }
      var created := table.Create(fields, now);
      r := Found(created.value);
    }

    /** `update`: None for an unknown uid, else the columns the data names, but never the
        uid, are written. A new email that clashes makes the commit raise. */
    method Update(uid: Value, d: map<string, Value>) returns (r: Outcome)
      requires Valid()
      modifies table
      ensures Valid()
      ensures old(table.Find(uid)).None? ==> r == NotFound && table.rows == old(table.rows)
      ensures old(table.Find(uid)).Some? ==>
        var k := old(table.Find(uid)).value;
        var updated := UpdatedRow(old(table.rows[k]), UpdateFields(d));
        if EmailTaken(old(table.rows), k, updated) then r == Raised("IntegrityError") && table.rows == old(table.rows)
        else r == Found(updated) && table.rows == old(table.rows)[k := updated]
    {
      var found := table.Find(uid);
      if found.None? {
        return NotFound;
      }
      var k := found.value;
      var updated := UpdatedRow(table.rows[k], UpdateFields(d));
      if EmailTaken(table.rows, k, updated) {
        return Raised("IntegrityError");
      }
      var row := table.Update(k, Dict(UpdateFields(d)));
      r := Found(row);
    }

    /** `get_or_create`: an existing user is updated; otherwise one is created. If the
        insert clashes, because `racer` was committed by another session since the lookup
        or because the email is taken, the transaction is rolled back and the user is
        looked up again. */
    method GetOrCreate(d: map<string, Value>, racer: Option<Row>, now: int) returns (r: Outcome)
      requires Valid()
      requires racer.Some? ==> racer.value.Keys == UserColumns
      modifies table
      ensures Valid()
      ensures "uid" !in d ==> r == Raised("KeyError") && table.rows == old(table.rows)
      ensures "uid" in d && old(table.Find(d["uid"])).Some? ==>
        var k := old(table.Find(d["uid"])).value;
        || (r == Found(UpdatedRow(old(table.rows[k]), UpdateFields(d))) && table.rows == old(table.rows)[k := r.row])
        || (r == Raised("IntegrityError") && table.rows == old(table.rows))
      ensures "uid" in d && old(table.Find(d["uid"])).None? && racer.None? ==>
        (r == Found(table.NewRow(CreateFields(d), old(table.nextId), now)) && table.rows == old(table.rows) + [r.row])
        || (r == NotFound && table.rows == old(table.rows))
      ensures "uid" in d && old(table.Find(d["uid"])).None? && racer.Some? && Has(racer.value, "uid", d["uid"]) ==>
        r == Found(racer.value) && table.rows == old(table.rows) + [racer.value]
    {
      if "uid" !in d {
        return Raised("KeyError");
      }
      var uid := d["uid"];
      var existing := table.Find(uid);
      if existing.Some? {
        r := Update(uid, d);
        return;
      }
      if racer.Some? {
        table.rows := table.rows + [racer.value];
        assert table.Find(uid).None? ==> !Has(racer.value, "uid", uid) by {
          assert table.rows[|table.rows| - 1] == racer.value;
        }
      }
      r := Create(d, now);
      if r == Raised("IntegrityError") {
        var again := table.Find(uid);
        if again.Some? {
          r := Found(table.rows[again.value]);
          if racer.Some? && Has(racer.value, "uid", uid) {
            CreatedRowIsFound(old(table.rows), "uid", racer.value, uid);
          }
        } else {
          r := NotFound;
        }
      }
    }
  }

  /** Another row at a position other than `k` already holds the row's (non-null) email. */
  predicate EmailTaken(rows: seq<Row>, k: nat, row: Row) {
    "email" in row && row["email"] != Null &&
    exists i :: 0 <= i < |rows| && i != k && Has(rows[i], "email", row["email"])
  }

  /** A lost race is answered with the winner's row. */
  lemma CreateClashesWithRacer(rows: seq<Row>, racer: Row, created: Row)
    requires "uid" in created && Has(racer, "uid", created["uid"])
    ensures Clashes(rows + [racer], created)
  {
    assert (rows + [racer])[|rows|] == racer;
  }

  /** When the insert clashes only on the email, the uid is still unknown after the
      rollback and `get_or_create` returns None, not a user. */
  lemma EmailClashReturnsNothing(rows: seq<Row>, created: Row, j: nat)
    requires j < |rows| && "uid" in created && "email" in created && created["email"] != Null
    requires Has(rows[j], "email", created["email"])
    requires forall i :: 0 <= i < |rows| ==> !Has(rows[i], "uid", created["uid"])
    ensures Clashes(rows, created) && IndexOf(rows, "uid", created["uid"]).None?
  {
  }
}
