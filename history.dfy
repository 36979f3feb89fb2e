/**
 * `get_import_history` in backend/app/api/api_v1/endpoints/imports.py: the caller's
 * jobs in the registry's insertion order, narrowed by the two optional filters, sorted
 * newest first by a stable sort, and cut into pages.
 */
module ImportHistory {
  import opened Wrappers
  import opened ImportSchema
  import opened Imports
  import opened Seqs

  /** The `Query` bounds `page >= 1` and `1 <= page_size <= 100`; FastAPI answers 422 otherwise. */
  const InvalidQuery := HttpError(422, "Query parameter out of range")

  predicate QueryValid(page: int, pageSize: int) {
    page >= 1 && 1 <= pageSize <= 100
  }

  // ---------------------------------------------------------------------------
  // Selecting the caller's jobs

  /** `import_jobs.values()`: the jobs filed under `ids`, in the order of `ids`. */
  function Entries(ids: seq<string>, jobs: map<string, Job>): (js: seq<Job>)
    ensures |js| <= |ids|
    ensures forall j :: j in js ==> exists id :: id in ids && id in jobs && jobs[id] == j
    ensures forall id :: id in ids && id in jobs ==> jobs[id] in js
  {
    if ids == [] then []
    else
      var id := ids[|ids| - 1];
      var init := Entries(ids[..|ids| - 1], jobs);
      assert forall i :: i in ids[..|ids| - 1] ==> i in ids;
      assert forall i :: i in ids ==> i in ids[..|ids| - 1] || i == id;
      if id in jobs then init + [jobs[id]] else init
  }

  /**
   * The three list comprehensions: the caller's jobs, then those of the requested
   * kind, then those in the requested status. An absent filter keeps everything.
   */
  predicate Matches(j: Job, uid: string, kind: Option<ImportType>, status: Option<ImportStatus>) {
    && j.owner == uid
    && (kind.None? || j.kind == kind.value)
    && (status.None? || j.status == status.value)
  }

  function Matching(js: seq<Job>, uid: string, kind: Option<ImportType>, status: Option<ImportStatus>)
    : (r: seq<Job>)
    ensures forall j :: j in r <==> j in js && Matches(j, uid, kind, status)
    ensures |r| <= |js|
  {
    if js == [] then []
    else
      var j := js[|js| - 1];
      var init := Matching(js[..|js| - 1], uid, kind, status);
      assert js == js[..|js| - 1] + [j];
      if Matches(j, uid, kind, status) then init + [j] else init
  }

  // ---------------------------------------------------------------------------
  // `sort(key=created_at, reverse=True)`

  /** Newest first: the creation times never rise along the list. */
  predicate NewestFirst(s: seq<Job>) {
    forall i, k :: 0 <= i < k < |s| ==> s[i].createdAt >= s[k].createdAt
  }

  /** The jobs of `s` created at time `t`, in the order of `s`. */
  function CreatedAt(s: seq<Job>, t: int): (r: seq<Job>)
    ensures forall j :: j in r <==> j in s && j.createdAt == t
  {
    if s == [] then []
    else
      var init := CreatedAt(s[..|s| - 1], t);
      assert s == s[..|s| - 1] + [s[|s| - 1]];
      if s[|s| - 1].createdAt == t then init + [s[|s| - 1]] else init
  }

  /**
   * One step of a stable sort: `j`, which came after every job of `s` in the input,
   * goes after every job of `s` that is at least as new.
   */
  function Insert(j: Job, s: seq<Job>): (r: seq<Job>)
    ensures multiset(r) == multiset(s) + multiset{j}
    ensures forall x :: x in r <==> x in s || x == j
    ensures |r| == |s| + 1
  {
    if s == [] then [j]
    else if s[0].createdAt >= j.createdAt then
      assert s == [s[0]] + s[1..];
      [s[0]] + Insert(j, s[1..])
    else [j] + s
  }

  /** Python's `list.sort(reverse=True)`, which keeps equal keys in their input order. */
  function SortByNewest(js: seq<Job>): (r: seq<Job>)
    ensures multiset(r) == multiset(js)
    ensures forall x :: x in r <==> x in js
    ensures |r| == |js|
  {
    if js == [] then []
    else
      assert js == js[..|js| - 1] + [js[|js| - 1]];
      Insert(js[|js| - 1], SortByNewest(js[..|js| - 1]))
  }

  /** The head of a newest-first list is at least as new as every job in it. */
  lemma HeadIsNewest(s: seq<Job>)
    requires NewestFirst(s) && s != []
    ensures forall x :: x in s ==> x.createdAt <= s[0].createdAt
  {
    forall x | x in s
      ensures x.createdAt <= s[0].createdAt
    {
      var k :| 0 <= k < |s| && s[k] == x;
    }
  }

  /** The tail of a newest-first list is newest first. */
  lemma TailNewestFirst(s: seq<Job>)
    requires NewestFirst(s) && s != []
    ensures NewestFirst(s[1..])
  {
    forall a, b | 0 <= a < b < |s[1..]|
      ensures s[1..][a].createdAt >= s[1..][b].createdAt
    {
      assert s[1..][a] == s[a + 1] && s[1..][b] == s[b + 1];
    }
  }

  /** A job no newer than every job of a newest-first list can go in front of it. */
  lemma ConsNewestFirst(x: Job, s: seq<Job>)
    requires NewestFirst(s) && forall y :: y in s ==> y.createdAt <= x.createdAt
    ensures NewestFirst([x] + s)
  {
    var r := [x] + s;
    forall a, b | 0 <= a < b < |r|
      ensures r[a].createdAt >= r[b].createdAt
    {
      assert r[b] == s[b - 1];
      if a > 0 {
        assert r[a] == s[a - 1];
      } else {
        assert s[b - 1] in s;
      }
    }
  }

  lemma {:induction false} InsertNewestFirst(j: Job, s: seq<Job>)
    requires NewestFirst(s)
    ensures NewestFirst(Insert(j, s))
    decreases |s|
  {
    if s != [] {
      if s[0].createdAt >= j.createdAt {
        TailNewestFirst(s);
        InsertNewestFirst(j, s[1..]);
        HeadIsNewest(s);
        assert forall y :: y in s[1..] ==> y in s;
        ConsNewestFirst(s[0], Insert(j, s[1..]));
      } else {
        HeadIsNewest(s);
        ConsNewestFirst(j, s);
      }
    }
  }

  /** The sorted list is newest first. */
  lemma {:induction false} SortedNewestFirst(js: seq<Job>)
    ensures NewestFirst(SortByNewest(js))
    decreases |js|
  {
    if js != [] {
      SortedNewestFirst(js[..|js| - 1]);
      InsertNewestFirst(js[|js| - 1], SortByNewest(js[..|js| - 1]));
    }
  }

  /** No job of `s` was created at `t`. */
  lemma {:induction false} NoneCreatedAt(s: seq<Job>, t: int)
    requires forall x :: x in s ==> x.createdAt != t
    ensures CreatedAt(s, t) == []
    decreases |s|
  {
    if s != [] {
      assert forall x :: x in s[..|s| - 1] ==> x in s;
      NoneCreatedAt(s[..|s| - 1], t);
      assert s[|s| - 1] in s;
    }
  }

  /** `CreatedAt` distributes over a leading job. */
  lemma {:induction false} CreatedAtCons(x: Job, s: seq<Job>, t: int)
    ensures CreatedAt([x] + s, t) == (if x.createdAt == t then [x] else []) + CreatedAt(s, t)
    decreases |s|
  {
    if s != [] {
      var xs := [x] + s;
      assert xs[..|xs| - 1] == [x] + s[..|s| - 1];
      CreatedAtCons(x, s[..|s| - 1], t);
    } else {
      assert ([x] + s)[..0] == [];
    }
  }

  /** Inserting `j` adds it behind the jobs of `s` created at the same time. */
  lemma {:induction false} InsertStable(j: Job, s: seq<Job>, t: int)
    requires NewestFirst(s)
    ensures CreatedAt(Insert(j, s), t) == CreatedAt(s, t) + (if j.createdAt == t then [j] else [])
    decreases |s|
  {
    if s == [] {
      CreatedAtCons(j, [], t);
    } else if s[0].createdAt >= j.createdAt {
      TailNewestFirst(s);
      InsertStable(j, s[1..], t);
      InsertBehindHead(j, s, t);
    } else {
      InsertInFront(j, s, t);
    }
  }

  /** The step of `InsertStable` where `j` goes behind the head of `s`. */
  lemma InsertBehindHead(j: Job, s: seq<Job>, t: int)
    requires s != [] && s[0].createdAt >= j.createdAt
    requires CreatedAt(Insert(j, s[1..]), t) == CreatedAt(s[1..], t) + (if j.createdAt == t then [j] else [])
    ensures CreatedAt(Insert(j, s), t) == CreatedAt(s, t) + (if j.createdAt == t then [j] else [])
  {
    var fj := if j.createdAt == t then [j] else [];
    var f0 := if s[0].createdAt == t then [s[0]] else [];
    var tail := s[1..];
    var rest := Insert(j, tail);
    var c := CreatedAt(tail, t);
    assert Insert(j, s) == [s[0]] + rest;
    assert CreatedAt([s[0]] + rest, t) == f0 + (c + fj) by {
      CreatedAtCons(s[0], rest, t);
    }
    assert CreatedAt(s, t) == f0 + c by {
      HeadTail(s);
      CreatedAtCons(s[0], tail, t);
    }
    Associative(f0, c, fj);
  }

  /** The step of `InsertStable` where `j` is newer than all of `s` and goes in front. */
  lemma InsertInFront(j: Job, s: seq<Job>, t: int)
    requires NewestFirst(s) && s != [] && s[0].createdAt < j.createdAt
    ensures CreatedAt(Insert(j, s), t) == CreatedAt(s, t) + (if j.createdAt == t then [j] else [])
  {
    assert Insert(j, s) == [j] + s;
    CreatedAtCons(j, s, t);
    if j.createdAt == t {
      HeadIsNewest(s);
      NoneCreatedAt(s, t);
    }
  }

  /**
   * The sort is stable: the jobs created at any one time keep the order they had in
   * the input. With the two ensures of `SortByNewest` and `SortedNewestFirst` this
   * pins the sorted list down completely.
   */
  lemma {:induction false} SortStable(js: seq<Job>, t: int)
    ensures CreatedAt(SortByNewest(js), t) == CreatedAt(js, t)
    decreases |js|
  {
    if js != [] {
      var init := js[..|js| - 1];
      SortStable(init, t);
      SortedNewestFirst(init);
      InsertStable(js[|js| - 1], SortByNewest(init), t);
    }
  }

  /** A list that is already newest first comes out of the sort unchanged. */
  lemma {:induction false} SortKeepsNewestFirst(js: seq<Job>)
    requires NewestFirst(js)
    ensures SortByNewest(js) == js
    decreases |js|
  {
    if js != [] {
      var init := js[..|js| - 1];
      var last := js[|js| - 1];
      assert NewestFirst(init) by {
        forall a, b | 0 <= a < b < |init|
          ensures init[a].createdAt >= init[b].createdAt
        {
          assert init[a] == js[a] && init[b] == js[b];
        }
      }
      SortKeepsNewestFirst(init);
      InsertAfterAll(last, init);
      assert init + [last] == js;
    }
  }

  lemma {:induction false} InsertAfterAll(j: Job, s: seq<Job>)
    requires forall x :: x in s ==> x.createdAt >= j.createdAt
    ensures Insert(j, s) == s + [j]
    decreases |s|
  {
    if s != [] {
      assert s[0] in s;
      InsertAfterAll(j, s[1..]);
      assert s == [s[0]] + s[1..];
    }
  }

  // ---------------------------------------------------------------------------
  // Pages

  /** `start_idx = (page - 1) * page_size` */
  function PageStart(page: int, pageSize: int): (start: nat)
    requires page >= 1 && pageSize >= 1
    ensures start == (page - 1) * pageSize
    ensures start + pageSize == page * pageSize
  {
    (page - 1) * pageSize
  }

  /** Every job of the sorted list is on exactly the page its position says. */
  lemma OnItsPage<T>(s: seq<T>, k: nat, pageSize: int)
    requires k < |s| && pageSize >= 1
    ensures var page := k / pageSize + 1;
      var w := Window(s, PageStart(page, pageSize), pageSize);
      k % pageSize < |w| && w[k % pageSize] == s[k]
  {
    var page := k / pageSize + 1;
    assert PageStart(page, pageSize) + k % pageSize == k;
  }

  /** `has_next = end_idx < total`: there is a next page exactly when it would not be empty. */
  lemma HasNextMeansMore<T>(s: seq<T>, page: int, pageSize: int)
    requires page >= 1 && pageSize >= 1
    ensures PageStart(page, pageSize) + pageSize < |s| <==> Window(s, PageStart(page + 1, pageSize), pageSize) != []
  {
    assert PageStart(page + 1, pageSize) == PageStart(page, pageSize) + pageSize;
  }

  /** The list comprehension building the `ImportStatusResponse` items; the first bad one raises. */
  function Views(js: seq<Job>): (r: Result<seq<StatusView>, string>)
    ensures r.Success? <==> forall i :: 0 <= i < |js| ==> ProgressInRange(js[i].progress)
    ensures r.Success? ==> |r.value| == |js| && forall i :: 0 <= i < |js| ==> View(js[i]) == Success(r.value[i])
  {
    if js == [] then Success([])
    else match View(js[0])
      case Failure(e) => Failure(e)
      case Success(v) =>
        match Views(js[1..])
        case Failure(e) => Failure(e)
        case Success(vs) =>
          assert forall i :: 1 <= i < |js| ==> js[i] == js[1..][i - 1];
          Success([v] + vs)
  }

  // ---------------------------------------------------------------------------
  // The endpoint

  /** The jobs the history lists, in their order, before they are cut into pages. */
  function Listed(reg: ImportRegistry, uid: string, kind: Option<ImportType>, status: Option<ImportStatus>)
    : (r: seq<Job>)
    reads reg
    ensures NewestFirst(r)
    ensures forall j :: j in r ==> Matches(j, uid, kind, status)
  {
    var js := Matching(Entries(reg.order, reg.jobs), uid, kind, status);
    SortedNewestFirst(js);
    SortByNewest(js)
  }

  /** `get_import_history` */
  function GetImportHistory(reg: ImportRegistry, uid: string, page: int, pageSize: int,
                            kind: Option<ImportType>, status: Option<ImportStatus>)
    : (r: Result<HistoryPage, HttpError>)
    reads reg
    ensures !QueryValid(page, pageSize) ==> r == Failure(InvalidQuery)
    ensures r.Success? ==> QueryValid(page, pageSize)
    ensures r.Success? ==>
      var listed := Listed(reg, uid, kind, status);
      && r.value.total == |listed| && r.value.page == page && r.value.pageSize == pageSize
      && |r.value.items| <= pageSize
      && (r.value.hasNext <==> page * pageSize < |listed|)
      && Views(Window(listed, PageStart(page, pageSize), pageSize)) == Success(r.value.items)
  {
    if !QueryValid(page, pageSize) then Failure(InvalidQuery)
    else
      var listed := Listed(reg, uid, kind, status);
      var start := PageStart(page, pageSize);
      match Views(Window(listed, start, pageSize))
      case Failure(e) => Failure(HttpError(500, e))
      case Success(items) => Success(HistoryPage(items, |listed|, page, pageSize, start + pageSize < |listed|))
  }

  /** Every job the caller owns that passes the filters is listed, and nothing else. */
  lemma ListedAreTheMatches(reg: ImportRegistry, uid: string, kind: Option<ImportType>, status: Option<ImportStatus>, id: string)
    requires reg.Valid() && id in reg.jobs
    ensures reg.jobs[id] in Listed(reg, uid, kind, status) <==> Matches(reg.jobs[id], uid, kind, status)
  {
    IdsMembers(reg.order, id);
    var js := Matching(Entries(reg.order, reg.jobs), uid, kind, status);
    assert reg.jobs[id] in Entries(reg.order, reg.jobs);
    assert reg.jobs[id] in SortByNewest(js) <==> reg.jobs[id] in multiset(js);
  }

  /** With valid query bounds the owner always gets a page: no job has a progress outside [0, 1]. */
  lemma HistoryAnswers(reg: ImportRegistry, uid: string, page: int, pageSize: int,
                       kind: Option<ImportType>, status: Option<ImportStatus>)
    requires reg.Valid() && QueryValid(page, pageSize)
    ensures GetImportHistory(reg, uid, page, pageSize, kind, status).Success?
  {
    var listed := Listed(reg, uid, kind, status);
    var w := Window(listed, PageStart(page, pageSize), pageSize);
    forall i | 0 <= i < |w|
      ensures ProgressInRange(w[i].progress)
    {
      assert w[i] in w;
      JobsInRange(reg, w[i], uid, kind, status);
    }
    assert Views(w).Success?;
  }

  /** Each listed job is a job of the registry, with a valid progress. */
  lemma JobsInRange(reg: ImportRegistry, j: Job, uid: string, kind: Option<ImportType>, status: Option<ImportStatus>)
    requires reg.Valid() && j in Listed(reg, uid, kind, status)
    ensures j.importId in reg.jobs && reg.jobs[j.importId] == j && ProgressInRange(j.progress)
  {
    var js := Matching(Entries(reg.order, reg.jobs), uid, kind, status);
    assert j in multiset(SortByNewest(js));
    assert j in Entries(reg.order, reg.jobs);
    var id :| id in reg.order && id in reg.jobs && reg.jobs[id] == j;
    IdsMembers(reg.order, id);
    JobOfValid(reg.order, reg.jobs, reg.marks, id);
    var m := reg.marks[id];
    RisingInRange(m, |m| - 1);
  }
}
