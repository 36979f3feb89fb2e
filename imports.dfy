/**
 * The import endpoints of backend/app/api/api_v1/endpoints/imports.py: the in-memory
 * `import_jobs` registry, the two registration endpoints, the status, result and
 * history readers, and the two background pipelines that move a job through its
 * stages. Identifiers, clocks and the outcomes of extractors and of the AI service are
 * parameters.
 */
module Imports {
  import opened Wrappers
  import opened Strings
  import opened ImportSchema
  import ChunkSplit
  import UrlImporter
  import AiService

  /** An `HTTPException`: status code and detail. */
  datatype HttpError = HttpError(code: int, detail: string)

  const NotFound := HttpError(404, "指定されたインポート処理が見つかりません")
  const Forbidden := HttpError(403, "このインポート処理にアクセスする権限がありません")
  const NotCompleted := HttpError(400, "インポート処理が完了していません")
  const UnsupportedUrl := HttpError(400, "サポートされていないURL形式です")

  /** `source_info`: what the job imports and the two request flags. */
  datatype Source = UrlSource(url: string) | FileSource(mediaId: string)

  /** What a completed job keeps: the note it made and how it was made. */
  datatype JobResult = JobResult(
    noteId: string, title: string, pages: seq<UrlImporter.Page>, textLength: nat,
    sourceType: string, processingTime: int)

  /** One entry of `import_jobs`. */
  datatype Job = Job(
    importId: string, kind: ImportType, status: ImportStatus, progress: real,
    source: Source, autoTitle: bool, autoSplit: bool, owner: string,
    createdAt: int, updatedAt: int, completedAt: Option<int>,
    result: Option<JobResult>, errorMessage: Option<string>, errorCode: Option<string>)

  /** `ImportResponse` */
  datatype ImportResponse = ImportResponse(
    importId: string, kind: ImportType, status: ImportStatus, source: Source,
    autoTitle: bool, autoSplit: bool, createdAt: int, estimatedSeconds: nat)

  /** `ImportResultDetail` */
  datatype ResultDetail = ResultDetail(
    noteId: string, title: string, totalPages: nat, pages: seq<UrlImporter.Page>,
    sourceType: string, processingTime: int, createdAt: int)

  /** `ImportListResponse` */
  datatype HistoryPage = HistoryPage(items: seq<StatusView>, total: nat, page: int, pageSize: int, hasNext: bool)

  /** A fresh job as the two registration endpoints write it. */
  function NewJob(id: string, kind: ImportType, source: Source, autoTitle: bool, autoSplit: bool, owner: string, now: int)
    : (job: Job)
    ensures job.importId == id && job.owner == owner && job.kind == kind
    ensures job.status == Pending && job.progress == 0.0
    ensures job.result.None? && job.errorCode.None? && job.completedAt.None?
  {
    Job(id, kind, Pending, 0.0, source, autoTitle, autoSplit, owner, now, now, None, None, None, None)
  }

  /** The marks a job's progress went through rise strictly and stay within [0, 1]. */
  ghost predicate Rising(marks: seq<real>) {
    marks == [] ||
      var p := marks[|marks| - 1];
      && Rising(marks[..|marks| - 1])
      && ProgressInRange(p)
      && (|marks| == 1 || marks[|marks| - 2] < p)
  }

  /** Every rising mark is a valid progress. */
  lemma {:induction false} RisingInRange(marks: seq<real>, i: nat)
    requires Rising(marks) && i < |marks|
    ensures ProgressInRange(marks[i])
    decreases |marks|
  {
    if i < |marks| - 1 {
      RisingInRange(marks[..|marks| - 1], i);
    }
  }

  /** Rising marks are strictly increasing. */
  lemma {:induction false} RisingIncreases(marks: seq<real>, i: nat, j: nat)
    requires Rising(marks) && i < j < |marks|
    ensures marks[i] < marks[j]
    decreases |marks|
  {
    var init := marks[..|marks| - 1];
    if j < |marks| - 1 {
      RisingIncreases(init, i, j);
    } else if i < j - 1 {
      RisingIncreases(init, i, j - 1);
    }
  }

  /** What holds of every job, given the progress marks written to it so far. */
  ghost predicate JobValid(job: Job, marks: seq<real>) {
    && marks != []
    && marks[|marks| - 1] == job.progress
    && Rising(marks)
    && (job.status == Pending ==> marks == [0.0])
    && (job.status == Completed ==> job.result.Some? && job.progress == 1.0)
    && (job.result.Some? ==> job.result.value.noteId == "import_" + job.importId)
    && (job.status == Failed ==> job.errorCode.Some?)
  }

  /** The ids of `ids`, as a set. */
  ghost function Ids(ids: seq<string>): set<string> {
    if ids == [] then {} else Ids(ids[..|ids| - 1]) + {ids[|ids| - 1]}
  }

  /** No id occurs twice in `ids`. */
  ghost predicate Distinct(ids: seq<string>) {
    ids == [] || (Distinct(ids[..|ids| - 1]) && ids[|ids| - 1] !in Ids(ids[..|ids| - 1]))
  }

  lemma AppendIds(ids: seq<string>, id: string)
    ensures Ids(ids + [id]) == Ids(ids) + {id}
    ensures !(id in Ids(ids)) && Distinct(ids) ==> Distinct(ids + [id])
  {
    assert (ids + [id])[..|ids|] == ids;
  }

  lemma {:induction false} IdsMembers(ids: seq<string>, id: string)
    ensures id in Ids(ids) <==> id in ids
  {
    if ids != [] {
      IdsMembers(ids[..|ids| - 1], id);
      assert ids == ids[..|ids| - 1] + [ids[|ids| - 1]];
    }
  }

  /** The view `ImportStatusResponse` gives of a job; pydantic refuses a progress outside [0, 1]. */
  function View(job: Job): (r: Result<StatusView, string>)
    ensures r.Success? <==> ProgressInRange(job.progress)
    ensures r.Success? ==> r.value.importId == job.importId && r.value.status == job.status
  {
    MakeStatusView(
      job.importId, job.kind, job.status, job.progress,
      if job.result.Some? then Some(job.result.value.noteId) else None,
      if job.result.Some? then Some(|job.result.value.pages|) else None,
      if job.result.Some? then Some(job.result.value.textLength) else None,
      if job.result.Some? then Some(job.result.value.title) else None,
      job.errorMessage, job.errorCode, job.createdAt, job.updatedAt, job.completedAt)
  }

  // ---------------------------------------------------------------------------
  // Titles and pages of a finished job

  /** `text[:n]` */
  function Prefix(s: string, n: nat): (p: string)
    ensures |p| == if |s| <= n then |s| else n
    ensures p == s[..|p|]
  {
    if |s| <= n then s else s[..n]
  }

  /**
   * The title a pipeline stores. With `autoTitle` and some text, the AI service is asked
   * about the first 500 characters: `ai` answers `None` when the service cannot be
   * built (the exception is caught and the fallback kept) and otherwise the string
   * `generate_title` returns, which may be its own error message.
   */
  function ChooseTitle(autoTitle: bool, text: string, ai: string -> Option<string>, fallback: string): (t: string)
    ensures t == fallback || (autoTitle && text != [] && ai(Prefix(text, 500)) == Some(t))
    ensures !autoTitle || text == [] ==> t == fallback
  {
    if autoTitle && text != [] && ai(Prefix(text, 500)).Some? then ai(Prefix(text, 500)).value else fallback
  }

  /** The service only sees the first 500 characters: texts that agree on them get the same title. */
  lemma TitleSeesOnlyPrefix(autoTitle: bool, text1: string, text2: string, ai: string -> Option<string>, fallback: string)
    requires |text1| >= 500 && |text2| >= 500 && text1[..500] == text2[..500]
    ensures ChooseTitle(autoTitle, text1, ai, fallback) == ChooseTitle(autoTitle, text2, ai, fallback)
  {
    assert Prefix(text1, 500) == Prefix(text2, 500);
  }

  /** The `ai` oracle of both pipelines: `AIService()` is built (`service` is None when
      its construction raises) and asked for a title with no length limit. */
  function ServiceTitle(service: Option<AiService.Provider>): string -> Option<string> {
    s => if service.Some? then Some(AiService.GenerateTitle(service.value, s, None)) else None
  }

  /** `generate_title` turns a provider failure into its own message instead of raising,
      so once the service is built the title of a non-empty text with `auto_title` on is
      always the service's answer: the fallback then needs `auto_title` off or no text. */
  lemma TitleFromBuiltService(autoTitle: bool, text: string, service: AiService.Provider, fallback: string)
    ensures ChooseTitle(autoTitle, text, ServiceTitle(Some(service)), fallback)
      == if autoTitle && text != [] then AiService.GenerateTitle(service, Prefix(text, 500), None) else fallback
  {
  }

  /** Only a service that cannot be built leaves the fallback title in place. */
  lemma TitleWithoutService(autoTitle: bool, text: string, fallback: string)
    ensures ChooseTitle(autoTitle, text, ServiceTitle(None), fallback) == fallback
  {
  }

  /** The texts of `pages`, in order. */
  function PageTexts(pages: seq<UrlImporter.Page>): (r: seq<string>)
    ensures |r| == |pages| && forall k :: 0 <= k < |r| ==> r[k] == pages[k].text
  {
    seq(|pages|, k requires 0 <= k < |pages| => pages[k].text)
  }

  /** The one page a job gets when its text is not split. */
  function WholePage(text: string): (pages: seq<UrlImporter.Page>)
    ensures UrlImporter.NumberedPages(pages, [text])
  {
    [UrlImporter.Page(1, text, |text|)]
  }

  /**
   * The pages of a URL import: split at paragraph boundaries when the request asks for
   * it, the `IMPORT_SPLIT_ENABLED` setting allows it and the text is over 2000
   * characters; one page otherwise.
   */
  ghost predicate UrlPaged(pages: seq<UrlImporter.Page>, text: string, autoSplit: bool, splitEnabled: bool) {
    if autoSplit && |text| > 2000 && splitEnabled then UrlImporter.NumberedPages(pages, ChunkSplit.Split(text, 2000, false))
    else pages == WholePage(text)
  }

  /** The pages of a file import: fixed 2000-character slices when asked for and needed; one page otherwise. */
  ghost predicate FilePaged(pages: seq<UrlImporter.Page>, text: string, autoSplit: bool) {
    if autoSplit && |text| > 2000 then UrlImporter.NumberedPages(pages, ChunkSplit.Slices(text, 2000))
    else pages == WholePage(text)
  }

  lemma NumberedTexts(pages: seq<UrlImporter.Page>, texts: seq<string>)
    requires UrlImporter.NumberedPages(pages, texts)
    ensures PageTexts(pages) == texts
    ensures forall k :: 0 <= k < |pages| ==> pages[k].pageNumber == k + 1 && pages[k].charCount == |pages[k].text|
  {
  }

  /**
   * A split URL import never has a page over 2002 characters (2000 and the one blank line
   * the packing test leaves uncounted), and its pages are numbered 1, 2, ...
   */
  lemma UrlPagesWithinLimit(pages: seq<UrlImporter.Page>, text: string, autoSplit: bool, splitEnabled: bool)
    requires UrlPaged(pages, text, autoSplit, splitEnabled) && autoSplit && splitEnabled
    ensures forall k :: 0 <= k < |pages| ==> pages[k].charCount <= 2002 && pages[k].pageNumber == k + 1
  {
    if |text| > 2000 {
      var chunks := ChunkSplit.Split(text, 2000, false);
      ChunkSplit.ChunksWithinBound(text, 2000, false);
      forall k | 0 <= k < |pages|
        ensures pages[k].charCount <= 2002
      {
        assert chunks[k] in chunks;
      }
    }
  }

  /**
   * A file import loses nothing: its pages put back together give the extracted text,
   * and, when it was split, every page holds between 1 and 2000 characters.
   */
  lemma FilePagesCoverText(pages: seq<UrlImporter.Page>, text: string, autoSplit: bool)
    requires FilePaged(pages, text, autoSplit)
    ensures Concat(PageTexts(pages)) == text
    ensures autoSplit ==> forall k :: 0 <= k < |pages| ==> 0 < pages[k].charCount <= 2000 || pages == WholePage(text)
    ensures pages != [] || text == []
  {
    if autoSplit && |text| > 2000 {
      NumberedTexts(pages, ChunkSplit.Slices(text, 2000));
    } else {
      assert PageTexts(pages) == [text];
      assert Concat([text]) == text + Concat([]);
    }
  }

  /** `job_info.update({"progress": p, "updated_at": now})` on a job that is being processed. */
  function AtStage(job: Job, p: real, now: int): (j: Job)
    ensures j.status == Processing && j.progress == p && j.result == job.result
    ensures j.importId == job.importId && j.owner == job.owner && j.createdAt == job.createdAt
  {
    job.(status := Processing, progress := p, updatedAt := now)
  }

  /** The job record after a pipeline that got through: the note, its pages and the time taken. */
  function Finishing(job: Job, title: string, pages: seq<UrlImporter.Page>, text: string, sourceType: string, now: int)
    : (j: Job)
    ensures j.status == Completed && j.progress == 1.0 && j.result.Some? && j.result.value.pages == pages
    ensures j.result.value.noteId == "import_" + job.importId && j.result.value.title == title && j.result.value.textLength == |text|
    ensures j.importId == job.importId && j.owner == job.owner && j.createdAt == job.createdAt
  {
    var result := JobResult("import_" + job.importId, title, pages, |text|, sourceType, now - job.createdAt);
    job.(status := Completed, progress := 1.0, result := Some(result), updatedAt := now, completedAt := Some(now))
  }

  /** The job record after a failed pipeline: the progress stays where the failure happened. */
  function Failing(job: Job, message: string, code: string, now: int): (j: Job)
    ensures j.status == Failed && j.progress == job.progress && j.errorCode == Some(code)
    ensures j.importId == job.importId && j.owner == job.owner && j.result == job.result
  {
    job.(status := Failed, errorMessage := Some(message), errorCode := Some(code), updatedAt := now, completedAt := Some(now))
  }

  /** Writing a larger progress keeps the marks rising. */
  lemma RisingAppend(marks: seq<real>, p: real)
    requires Rising(marks) && marks != [] && marks[|marks| - 1] < p && ProgressInRange(p)
    ensures Rising(marks + [p])
  {
    assert (marks + [p])[..|marks|] == marks;
  }

  /**
   * A URL job that got through: `after` is `before` taken to 0.7 and then completed,
   * with the note `import_<id>`, the title chosen from the extraction, and the pages
   * of its text.
   */
  ghost predicate UrlCompleted(before: Job, after: Job, e: UrlImporter.Extracted, autoTitle: bool, autoSplit: bool,
                               splitEnabled: bool, ai: string -> Option<string>, now: int) {
    && after.result.Some?
    && UrlPaged(after.result.value.pages, e.text, autoSplit, splitEnabled)
    && after == Finishing(AtStage(before, 0.7, now), ChooseTitle(autoTitle, e.text, ai, e.title.GetOr("Imported Note")),
                          after.result.value.pages, e.text, e.sourceType, now)
  }

  /** A file job that got through: `before` taken to 0.8 and then completed. */
  ghost predicate FileCompleted(before: Job, after: Job, e: UrlImporter.Extracted, autoTitle: bool, autoSplit: bool,
                                fallback: string, ai: string -> Option<string>, now: int) {
    && after.result.Some?
    && FilePaged(after.result.value.pages, e.text, autoSplit)
    && after == Finishing(AtStage(before, 0.8, now), ChooseTitle(autoTitle, e.text, ai, fallback),
                          after.result.value.pages, e.text, e.sourceType, now)
  }

  /** The name the file pipeline gives the file it stands in for the download. */
  function PlaceholderName(mediaId: string): (name: string)
    ensures StartsWith(name, "imported_file_") && EndsWith(name, ".txt")
    ensures |name| == |mediaId| + 18 && name[14..|name| - 4] == mediaId
  {
    "imported_file_" + mediaId + ".txt"
  }

  /** The error a file pipeline can meet: `FileProcessorError` or anything else. */
  datatype FileError = ProcessorError(message: string) | Unexpected(message: string)

  const UnexpectedMessage := "予期しないエラーが発生しました"

  /**
   * The two `except` branches of the file pipeline: a `FileProcessorError` keeps its
   * message under `FILE_IMPORT_ERROR`; anything else is hidden behind a fixed message
   * under `INTERNAL_ERROR`.
   */
  function FileFailed(job: Job, err: FileError, now: int): (j: Job)
    ensures j.status == Failed && j.progress == job.progress && j.result == job.result
    ensures j.importId == job.importId && j.owner == job.owner
    ensures err.ProcessorError? <==> j.errorCode == Some("FILE_IMPORT_ERROR")
    ensures err.ProcessorError? ==> j.errorMessage == Some(err.message)
    ensures err.Unexpected? ==> j.errorMessage == Some(UnexpectedMessage) && j.errorCode == Some("INTERNAL_ERROR")
  {
    match err
    case ProcessorError(message) => Failing(job, message, "FILE_IMPORT_ERROR", now)
    case Unexpected(_) => Failing(job, UnexpectedMessage, "INTERNAL_ERROR", now)
  }

  /** A job starts with the one mark 0.0. */
  lemma FirstMark()
    ensures Rising([0.0])
  {
    assert [0.0][..0] == [];
  }

  /** The marks `_process_url_import` writes, in the order it writes them, rise. */
  lemma UrlStagesRise()
    ensures Rising([0.0, 0.1]) && Rising([0.0, 0.1, 0.5]) && Rising([0.0, 0.1, 0.5, 0.7])
    ensures Rising([0.0, 0.1, 0.5, 0.7, 1.0])
  {
    FirstMark();
    RisingAppend([0.0], 0.1);
    assert [0.0] + [0.1] == [0.0, 0.1];
    RisingAppend([0.0, 0.1], 0.5);
    assert [0.0, 0.1] + [0.5] == [0.0, 0.1, 0.5];
    RisingAppend([0.0, 0.1, 0.5], 0.7);
    assert [0.0, 0.1, 0.5] + [0.7] == [0.0, 0.1, 0.5, 0.7];
    RisingAppend([0.0, 0.1, 0.5, 0.7], 1.0);
    assert [0.0, 0.1, 0.5, 0.7] + [1.0] == [0.0, 0.1, 0.5, 0.7, 1.0];
  }

  /** The marks `_process_file_import` writes, in the order it writes them, rise. */
  lemma FileStagesRise()
    ensures Rising([0.0, 0.1]) && Rising([0.0, 0.1, 0.3]) && Rising([0.0, 0.1, 0.3, 0.6])
    ensures Rising([0.0, 0.1, 0.3, 0.6, 0.8]) && Rising([0.0, 0.1, 0.3, 0.6, 0.8, 1.0])
  {
    FirstMark();
    RisingAppend([0.0], 0.1);
    assert [0.0] + [0.1] == [0.0, 0.1];
    RisingAppend([0.0, 0.1], 0.3);
    assert [0.0, 0.1] + [0.3] == [0.0, 0.1, 0.3];
    RisingAppend([0.0, 0.1, 0.3], 0.6);
    assert [0.0, 0.1, 0.3] + [0.6] == [0.0, 0.1, 0.3, 0.6];
    RisingAppend([0.0, 0.1, 0.3, 0.6], 0.8);
    assert [0.0, 0.1, 0.3, 0.6] + [0.8] == [0.0, 0.1, 0.3, 0.6, 0.8];
    RisingAppend([0.0, 0.1, 0.3, 0.6, 0.8], 1.0);
    assert [0.0, 0.1, 0.3, 0.6, 0.8] + [1.0] == [0.0, 0.1, 0.3, 0.6, 0.8, 1.0];
  }

  /** The pages `_process_url_import` builds. */
  method UrlPages(text: string, autoSplit: bool, splitEnabled: bool) returns (pages: seq<UrlImporter.Page>)
    ensures UrlPaged(pages, text, autoSplit, splitEnabled)
  {
    if autoSplit && |text| > 2000 && splitEnabled {
      var chunks := ChunkSplit.SplitIntoChunks(text, 2000, false);
      pages := UrlImporter.NumberPages(chunks);
    } else {
      pages := WholePage(text);
    }
  }

  /** The pages `_process_file_import` builds. */
  method FilePages(text: string, autoSplit: bool) returns (pages: seq<UrlImporter.Page>)
    ensures FilePaged(pages, text, autoSplit)
  {
    if autoSplit && |text| > 2000 {
      pages := UrlImporter.NumberPages(ChunkSplit.Slices(text, 2000));
    } else {
      pages := WholePage(text);
    }
  }

  /** Every id of `ids` names a job filed under that id, which agrees with its marks. */
  ghost predicate AllJobsValid(ids: seq<string>, jobs: map<string, Job>, marks: map<string, seq<real>>) {
    ids == [] ||
      var id := ids[|ids| - 1];
      && AllJobsValid(ids[..|ids| - 1], jobs, marks)
      && id in jobs && jobs[id].importId == id && id in marks && JobValid(jobs[id], marks[id])
  }

  /**
   * What holds of the registry: `order` lists every key of `jobs` once, each job is
   * filed under its own id, and each job agrees with the progress marks written to it.
   */
  ghost predicate ValidState(jobs: map<string, Job>, order: seq<string>, marks: map<string, seq<real>>) {
    && jobs.Keys == Ids(order)
    && Distinct(order)
    && AllJobsValid(order, jobs, marks)
  }

  lemma {:induction false} JobOfValid(ids: seq<string>, jobs: map<string, Job>, marks: map<string, seq<real>>, id: string)
    requires AllJobsValid(ids, jobs, marks) && id in Ids(ids)
    ensures id in jobs && jobs[id].importId == id && id in marks && JobValid(jobs[id], marks[id])
  {
    if ids[|ids| - 1] != id {
      JobOfValid(ids[..|ids| - 1], jobs, marks, id);
    }
  }

  lemma {:induction false} AllJobsUpdate(ids: seq<string>, jobs: map<string, Job>, marks: map<string, seq<real>>,
                                         id: string, job: Job, m: seq<real>)
    requires AllJobsValid(ids, jobs, marks) && job.importId == id && JobValid(job, m)
    ensures AllJobsValid(ids, jobs[id := job], marks[id := m])
  {
    if ids != [] {
      AllJobsUpdate(ids[..|ids| - 1], jobs, marks, id, job, m);
    }
  }

  /** Writing a key twice leaves only the second value. */
  lemma Overwrite<V>(m: map<string, V>, k: string, a: V, b: V)
    ensures m[k := a][k := b] == m[k := b]
  {
  }

  /** Rewriting one job keeps the registry valid when the new job agrees with its new marks. */
  lemma UpdateKeepsValid(jobs: map<string, Job>, order: seq<string>, marks: map<string, seq<real>>,
                         id: string, job: Job, m: seq<real>)
    requires ValidState(jobs, order, marks) && id in jobs && job.importId == id && JobValid(job, m)
    ensures ValidState(jobs[id := job], order, marks[id := m])
  {
    AllJobsUpdate(order, jobs, marks, id, job, m);
  }

  /**
   * The module-level `import_jobs` dictionary. `order` is its insertion order, which
   * the history reads; `marks` records every progress value written to each job.
   */
  class ImportRegistry {
    var jobs: map<string, Job>
    var order: seq<string>
    ghost var marks: map<string, seq<real>>

    ghost predicate Valid()
      reads this
    {
      ValidState(jobs, order, marks)
    }

    constructor()
      ensures Valid() && jobs == map[] && order == []
    {
      jobs := map[];
      order := [];
      marks := map[];
    }

    /** `import_jobs[import_id] = job_info`: a new key goes last, a known key keeps its place. */
    method Register(job: Job)
      requires Valid() && job.status == Pending && job.progress == 0.0 && job.result.None?
      modifies this
      ensures Valid()
      ensures jobs == old(jobs)[job.importId := job]
      ensures order == if job.importId in old(jobs) then old(order) else old(order) + [job.importId]
    {
      var id := job.importId;
      var known := id in jobs;
      FirstMark();
      assert JobValid(job, [0.0]);
      AllJobsUpdate(order, jobs, marks, id, job, [0.0]);
      jobs := jobs[id := job];
      marks := marks[id := [0.0]];
      if !known {
        AppendIds(order, id);
        assert (order + [id])[..|order|] == order;
        order := order + [id];
      }
    }

    /** `job_info.update(...)`: one job is rewritten, with the progress marks written to it so far. */
    method Store(id: string, job: Job, ghost m: seq<real>)
      requires Valid() && id in jobs && job.importId == id && JobValid(job, m)
      modifies this
      ensures Valid()
      ensures jobs == old(jobs)[id := job] && marks == old(marks)[id := m] && order == old(order)
    {
      UpdateKeepsValid(jobs, order, marks, id, job, m);
      jobs := jobs[id := job];
      marks := marks[id := m];
    }

    /** A stage update: the job is processing at the last of the marks `m`. */
    method Advance(id: string, pending: Job, m: seq<real>, now: int)
      requires Valid() && id in jobs && pending.importId == id
      requires pending.result.Some? ==> pending.result.value.noteId == "import_" + id
      requires m != [] && Rising(m)
      modifies this
      ensures Valid()
      ensures jobs == old(jobs)[id := AtStage(pending, m[|m| - 1], now)] && marks == old(marks)[id := m]
      ensures order == old(order)
    {
      Store(id, AtStage(pending, m[|m| - 1], now), m);
    }

    /** The completion: the job carries its result, at progress 1.0. */
    method Complete(id: string, job: Job, title: string, pages: seq<UrlImporter.Page>, text: string,
                    sourceType: string, ghost m: seq<real>, now: int)
      requires Valid() && id in jobs && job.importId == id
      requires m != [] && Rising(m) && m[|m| - 1] == 1.0
      modifies this
      ensures Valid()
      ensures jobs == old(jobs)[id := Finishing(job, title, pages, text, sourceType, now)]
      ensures marks == old(marks)[id := m] && order == old(order)
    {
      Store(id, Finishing(job, title, pages, text, sourceType, now), m);
    }

    /** A failure: the job keeps its progress and its marks. */
    method Fail(id: string, failed: Job)
      requires Valid() && id in jobs && failed.importId == id
      requires failed.status == Failed && failed.errorCode.Some?
      requires failed.progress == jobs[id].progress && failed.result == jobs[id].result
      modifies this
      ensures Valid()
      ensures jobs == old(jobs)[id := failed] && marks == old(marks) && order == old(order)
    {
      JobOfValid(order, jobs, marks, id);
      Store(id, failed, marks[id]);
      assert marks == old(marks);
    }

    /**
     * `import_from_url`: a URL the importer cannot classify is refused before anything is
     * stored; any other is registered as a pending job owned by the caller.
     */
    method ImportFromUrl(id: string, request: UrlImportRequest, uid: string, now: int)
      returns (r: Result<ImportResponse, HttpError>)
      requires Valid()
      modifies this
      ensures Valid()
      ensures !UrlImporter.IsUrlSupported(request.url) ==> r == Failure(UnsupportedUrl) && jobs == old(jobs) && order == old(order)
      ensures UrlImporter.IsUrlSupported(request.url) ==>
        var source := UrlSource(request.url);
        && r == Success(ImportResponse(id, Url, Pending, source, request.autoTitle, request.autoSplit, now, 30))
        && jobs == old(jobs)[id := NewJob(id, Url, source, request.autoTitle, request.autoSplit, uid, now)]
        && order == if id in old(jobs) then old(order) else old(order) + [id]
    {
      if !UrlImporter.IsUrlSupported(request.url) {
        return Failure(UnsupportedUrl);
      }
      var source := UrlSource(request.url);
      Register(NewJob(id, Url, source, request.autoTitle, request.autoSplit, uid, now));
      r := Success(ImportResponse(id, Url, Pending, source, request.autoTitle, request.autoSplit, now, 30));
    }

    /**
     * `import_from_file`: the media status lookup (`mediaStatus`) is consulted, but both
     * its failure and its 400 for unfinished media are swallowed by the surrounding
     * `except Exception`, so the job is registered whatever it says.
     */
    method ImportFromFile(id: string, request: FileImportRequest, uid: string, mediaStatus: Result<string, string>, now: int)
      returns (r: ImportResponse)
      requires Valid()
      modifies this
      ensures Valid()
      ensures var source := FileSource(request.mediaId);
        && r == ImportResponse(id, File, Pending, source, request.autoTitle, request.autoSplit, now, 60)
        && jobs == old(jobs)[id := NewJob(id, File, source, request.autoTitle, request.autoSplit, uid, now)]
        && order == if id in old(jobs) then old(order) else old(order) + [id]
    {
      var source := FileSource(request.mediaId);
      Register(NewJob(id, File, source, request.autoTitle, request.autoSplit, uid, now));
      r := ImportResponse(id, File, Pending, source, request.autoTitle, request.autoSplit, now, 60);
    }

    /**
     * `_process_url_import`. The extractors' outcomes (`youtube`, `webpage`), the
     * `IMPORT_SPLIT_ENABLED` setting, the AI service (`ai`) and the clock (`now`) are
     * parameters. Every error of the extraction reaches the pipeline as a
     * `URLImportError`, so the job fails at 0.1 with `URL_IMPORT_ERROR`; otherwise it
     * passes 0.5 and 0.7 and completes with its note, title and pages.
     */
    method ProcessUrlImport(id: string, url: string, autoTitle: bool, autoSplit: bool, splitEnabled: bool,
                            youtube: Result<UrlImporter.Extracted, string>, webpage: Result<UrlImporter.Extracted, string>,
                            ai: string -> Option<string>, now: int)
      requires Valid() && id in jobs && jobs[id].status == Pending
      modifies this
      ensures Valid()
      ensures order == old(order) && id in jobs && jobs == old(jobs)[id := jobs[id]] && id in marks
      ensures var e := UrlImporter.ExtractTextFromUrl(url, youtube, webpage);
        && (e.Failure? ==>
              && jobs[id] == Failing(AtStage(old(jobs)[id], 0.1, now), e.error, "URL_IMPORT_ERROR", now)
              && marks[id] == [0.0, 0.1])
        && (e.Success? ==>
              && UrlCompleted(old(jobs)[id], jobs[id], e.value, autoTitle, autoSplit, splitEnabled, ai, now)
              && marks[id] == [0.0, 0.1, 0.5, 0.7, 1.0])
    {
      JobOfValid(order, jobs, marks, id);
      UrlStagesRise();
      ghost var jobs0, marks0 := jobs, marks;
      var pending := jobs[id];
      Advance(id, pending, [0.0, 0.1], now);
      var e := UrlImporter.ExtractTextFromUrl(url, youtube, webpage);
      if e.Failure? {
        var failed := Failing(AtStage(pending, 0.1, now), e.error, "URL_IMPORT_ERROR", now);
        Overwrite(jobs0, id, jobs[id], failed);
        Fail(id, failed);
        return;
      }
      ghost var jobs1, marks1 := jobs, marks;
      FinishUrlImport(id, pending, e.value, autoTitle, autoSplit, splitEnabled, ai, now);
      Overwrite(jobs0, id, jobs1[id], jobs[id]);
      Overwrite(marks0, id, marks1[id], marks[id]);
    }

    /** The stages of `_process_url_import` after the extraction succeeded. */
    method FinishUrlImport(id: string, pending: Job, e: UrlImporter.Extracted, autoTitle: bool, autoSplit: bool,
                           splitEnabled: bool, ai: string -> Option<string>, now: int)
      requires Valid() && id in jobs && pending.importId == id
      requires jobs[id] == AtStage(pending, 0.1, now) && id in marks && marks[id] == [0.0, 0.1]
      modifies this
      ensures Valid()
      ensures order == old(order) && id in jobs && jobs == old(jobs)[id := jobs[id]] && id in marks
      ensures marks == old(marks)[id := [0.0, 0.1, 0.5, 0.7, 1.0]]
      ensures UrlCompleted(pending, jobs[id], e, autoTitle, autoSplit, splitEnabled, ai, now)
    {
      JobOfValid(order, jobs, marks, id);
      ghost var jobs0, marks0 := jobs, marks;
      UrlStagesRise();
      Advance(id, pending, [0.0, 0.1, 0.5], now);
      var text := e.text;
      var title := ChooseTitle(autoTitle, text, ai, e.title.GetOr("Imported Note"));
      Overwrite(jobs0, id, AtStage(pending, 0.5, now), AtStage(pending, 0.7, now));
      Overwrite(marks0, id, [0.0, 0.1, 0.5], [0.0, 0.1, 0.5, 0.7]);
      Advance(id, pending, [0.0, 0.1, 0.5, 0.7], now);
      var pages := UrlPages(text, autoSplit, splitEnabled);
      var done := Finishing(AtStage(pending, 0.7, now), title, pages, text, e.sourceType, now);
      Overwrite(jobs0, id, AtStage(pending, 0.7, now), done);
      Overwrite(marks0, id, [0.0, 0.1, 0.5, 0.7], [0.0, 0.1, 0.5, 0.7, 1.0]);
      Complete(id, AtStage(pending, 0.7, now), title, pages, text, e.sourceType, [0.0, 0.1, 0.5, 0.7, 1.0], now);
    }

    /**
     * `_process_file_import`. The download is still a placeholder in the source: the
     * file is named after the media id and its extraction outcome is a parameter. A
     * `FileProcessorError` fails the job with `FILE_IMPORT_ERROR` and its message, any
     * other error with `INTERNAL_ERROR` and a fixed message, both at 0.3.
     */
    method ProcessFileImport(id: string, mediaId: string, autoTitle: bool, autoSplit: bool,
                             extraction: Result<UrlImporter.Extracted, FileError>,
                             ai: string -> Option<string>, now: int)
      requires Valid() && id in jobs && jobs[id].status == Pending
      modifies this
      ensures Valid()
      ensures order == old(order) && id in jobs && jobs == old(jobs)[id := jobs[id]] && id in marks
      ensures extraction.Failure? ==>
              && jobs[id] == FileFailed(AtStage(old(jobs)[id], 0.3, now), extraction.error, now)
              && marks[id] == [0.0, 0.1, 0.3]
      ensures (extraction.Success? ==>
              && FileCompleted(old(jobs)[id], jobs[id], extraction.value, autoTitle, autoSplit,
                               "Imported from " + PlaceholderName(mediaId), ai, now)
              && marks[id] == [0.0, 0.1, 0.3, 0.6, 0.8, 1.0])
    {
      JobOfValid(order, jobs, marks, id);
      FileStagesRise();
      ghost var jobs0, marks0 := jobs, marks;
      var pending := jobs[id];
      Advance(id, pending, [0.0, 0.1], now);
      var filename := PlaceholderName(mediaId);
      Overwrite(jobs0, id, AtStage(pending, 0.1, now), AtStage(pending, 0.3, now));
      Overwrite(marks0, id, [0.0, 0.1], [0.0, 0.1, 0.3]);
      Advance(id, pending, [0.0, 0.1, 0.3], now);
      if extraction.Failure? {
        var failed := FileFailed(AtStage(pending, 0.3, now), extraction.error, now);
        Overwrite(jobs0, id, jobs[id], failed);
        Fail(id, failed);
        return;
      }
      ghost var jobs1, marks1 := jobs, marks;
      FinishFileImport(id, pending, extraction.value, autoTitle, autoSplit, "Imported from " + filename, ai, now);
      Overwrite(jobs0, id, jobs1[id], jobs[id]);
      Overwrite(marks0, id, marks1[id], marks[id]);
    }

    /** The stages of `_process_file_import` after the extraction succeeded. */
    method FinishFileImport(id: string, pending: Job, e: UrlImporter.Extracted, autoTitle: bool, autoSplit: bool,
                            fallback: string, ai: string -> Option<string>, now: int)
      requires Valid() && id in jobs && pending.importId == id
      requires jobs[id] == AtStage(pending, 0.3, now) && id in marks && marks[id] == [0.0, 0.1, 0.3]
      modifies this
      ensures Valid()
      ensures order == old(order) && id in jobs && jobs == old(jobs)[id := jobs[id]] && id in marks
      ensures marks == old(marks)[id := [0.0, 0.1, 0.3, 0.6, 0.8, 1.0]]
      ensures FileCompleted(pending, jobs[id], e, autoTitle, autoSplit, fallback, ai, now)
    {
      JobOfValid(order, jobs, marks, id);
      ghost var jobs0, marks0 := jobs, marks;
      FileStagesRise();
      Advance(id, pending, [0.0, 0.1, 0.3, 0.6], now);
      var text := e.text;
      var title := ChooseTitle(autoTitle, text, ai, fallback);
      Overwrite(jobs0, id, AtStage(pending, 0.6, now), AtStage(pending, 0.8, now));
      Overwrite(marks0, id, [0.0, 0.1, 0.3, 0.6], [0.0, 0.1, 0.3, 0.6, 0.8]);
      Advance(id, pending, [0.0, 0.1, 0.3, 0.6, 0.8], now);
      var pages := FilePages(text, autoSplit);
      var done := Finishing(AtStage(pending, 0.8, now), title, pages, text, e.sourceType, now);
      Overwrite(jobs0, id, AtStage(pending, 0.8, now), done);
      Overwrite(marks0, id, [0.0, 0.1, 0.3, 0.6, 0.8], [0.0, 0.1, 0.3, 0.6, 0.8, 1.0]);
      Complete(id, AtStage(pending, 0.8, now), title, pages, text, e.sourceType, [0.0, 0.1, 0.3, 0.6, 0.8, 1.0], now);
    }

    /** `get_import_status` */
    function GetImportStatus(id: string, uid: string): (r: Result<StatusView, HttpError>)
      reads this
      ensures id !in jobs ==> r == Failure(NotFound)
      ensures id in jobs && jobs[id].owner != uid ==> r == Failure(Forbidden)
      ensures r.Success? ==> id in jobs && jobs[id].owner == uid && View(jobs[id]) == Success(r.value)
    {
      if id !in jobs then Failure(NotFound)
      else if jobs[id].owner != uid then Failure(Forbidden)
      else match View(jobs[id])
        case Success(view) => Success(view)
        case Failure(e) => Failure(HttpError(500, e))
    }

    /** `get_import_result`: only the owner, and only once the job has completed. */
    function GetImportResult(id: string, uid: string): (r: Result<ResultDetail, HttpError>)
      reads this
      ensures id !in jobs ==> r == Failure(NotFound)
      ensures id in jobs && jobs[id].owner != uid ==> r == Failure(Forbidden)
      ensures id in jobs && jobs[id].owner == uid && jobs[id].status != Completed ==> r == Failure(NotCompleted)
      ensures r.Success? ==> id in jobs && jobs[id].status == Completed && jobs[id].result.Some?
    {
      if id !in jobs then Failure(NotFound)
      else
        var job := jobs[id];
        if job.owner != uid then Failure(Forbidden)
        else if job.status != Completed then Failure(NotCompleted)
        else match job.result
          case None => Failure(HttpError(500, "KeyError: 'note_id'"))
          case Some(res) =>
            Success(ResultDetail(res.noteId, res.title, |res.pages|, res.pages, res.sourceType, res.processingTime, job.createdAt))
    }

    /** The owner always gets an answer about a job: the registry never holds a progress outside [0, 1]. */
    lemma OwnerSeesStatus(id: string, uid: string)
      requires Valid() && id in jobs && jobs[id].owner == uid
      ensures GetImportStatus(id, uid).Success?
      ensures GetImportStatus(id, uid).value.progress == jobs[id].progress
      ensures GetImportStatus(id, uid).value.status == jobs[id].status
    {
      JobOfValid(order, jobs, marks, id);
      var m := marks[id];
      RisingInRange(m, |m| - 1);
    }

    /** A completed job's result is there for its owner, with the note named after the job. */
    lemma OwnerSeesResult(id: string, uid: string)
      requires Valid() && id in jobs && jobs[id].owner == uid && jobs[id].status == Completed
      ensures GetImportResult(id, uid).Success?
      ensures GetImportResult(id, uid).value.noteId == "import_" + id
    {
      JobOfValid(order, jobs, marks, id);
    }
  }
}
