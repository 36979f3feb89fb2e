/** The storage-provider interface shared by the local and the bucket back end:
    the metadata record of one upload, its chunk bookkeeping and the reply shapes. */
module StorageBase {
  import opened Wrappers
  import opened Strings
  import opened Seqs

  type Bytes = seq<bv8>

  /** One entry of the metadata's `chunks` object, stored under `str(chunk_index)`. */
  datatype ChunkEntry = ChunkEntry(size: nat, path: string)

  /** The JSON metadata of one upload. A key absent from the JSON object is `None`;
      `created_at`, `updated_at` and `uploaded_at` are clock readings and are not kept. */
  datatype Meta = Meta(
    mediaId: Option<string>,
    userId: Option<string>,
    fileType: Option<string>,
    fileSize: Option<int>,
    status: Option<string>,
    progress: Option<real>,
    filename: Option<string>,
    blobPath: Option<string>,
    chunks: Option<map<int, ChunkEntry>>,
    totalChunks: Option<int>,
    uploadProgress: Option<real>,
    filePath: Option<string>,
    md5Hash: Option<string>,
    error: Option<string>)

  /** The empty JSON object `{}`, which is also what a missing metadata file loads as. */
  const EmptyMeta := Meta(None, None, None, None, None, None, None, None, None, None, None, None, None, None)

  /** Reply of `generate_upload_url`. */
  datatype UploadTicket = UploadTicket(mediaId: string, uploadUrl: Option<string>, chunkUploadEnabled: bool, maxChunkSize: int)

  /** Reply of `upload_chunk`. */
  datatype ChunkReceipt = ChunkReceipt(mediaId: string, chunkIndex: int, receivedBytes: nat, status: string)

  /** Why `complete_upload` answered with status "error". */
  datatype CompletionError = ChunkCountMismatch(expected: int, actual: nat) | ChunkNotFound(index: int) | JoinFailed

  /** Reply of `complete_upload`. */
  datatype CompletionReply = CompletionReply(mediaId: string, status: string, progress: real, error: Option<CompletionError>)

  /** Reply of `get_media_status`. */
  datatype StatusReply = StatusReply(mediaId: string, status: string, progress: real, error: Option<string>)

  /** Exceptions that escape a provider method; `CloudCallFailed` is whatever a Cloud Storage
      write or save raised. */
  datatype StorageError = DivisionByZero | FileNotFound(path: string) | CloudCallFailed

  /** `_get_extension_from_mimetype`: the table lookup on the lower-cased type, "bin" otherwise. */
  function ExtensionFor(mimeType: string): (ext: string)
    ensures ext in {"wav", "mp3", "m4a", "aac", "ogg", "webm", "pdf", "jpg", "png", "bin"}
    ensures Lower(mimeType) in {"audio/wav", "audio/x-wav", "audio/wave"} <==> ext == "wav"
    ensures Lower(mimeType) in {"audio/mp3", "audio/mpeg"} <==> ext == "mp3"
    ensures Lower(mimeType) in {"audio/m4a", "audio/mp4"} <==> ext == "m4a"
    ensures ext == "bin" <==> Lower(mimeType) !in MimeExtensions.Keys - {"application/octet-stream"}
  {
    var m := Lower(mimeType);
    if m in MimeExtensions then MimeExtensions[m] else "bin"
  }

  const MimeExtensions: map<string, string> := map[
    "audio/wav" := "wav", "audio/x-wav" := "wav", "audio/wave" := "wav",
    "audio/mp3" := "mp3", "audio/mpeg" := "mp3",
    "audio/m4a" := "m4a", "audio/mp4" := "m4a",
    "audio/aac" := "aac", "audio/ogg" := "ogg", "audio/webm" := "webm",
    "application/pdf" := "pdf", "image/jpeg" := "jpg", "image/png" := "png",
    "application/octet-stream" := "bin"]

  /** `count / total` as Python's true division computes it for a non-zero total. */
  function Fraction(count: nat, total: int): real
    requires total != 0
  {
    count as real / total as real
  }

  /** The metadata after one chunk was recorded: its entry replaces any earlier entry for the
      same index, `total_chunks` takes the caller's latest value, and `upload_progress` is the
      number of distinct indices received over that total. None when the total is 0, where
      Python raises ZeroDivisionError before the metadata is saved. */
  function RecordChunk(meta: Meta, index: int, total: int, entry: ChunkEntry): (r: Option<Meta>)
    ensures r.None? <==> total == 0
    ensures r.Some? ==> var old_chunks := meta.chunks.GetOr(map[]);
      && r.value.chunks == Some(old_chunks[index := entry])
      && r.value.totalChunks == Some(total)
      && r.value.uploadProgress == Some(Fraction(|old_chunks[index := entry]|, total))
      && r.value.status == meta.status && r.value.progress == meta.progress
      && r.value.fileType == meta.fileType && r.value.blobPath == meta.blobPath
      && r.value.filePath == meta.filePath
  {
    var chunks := meta.chunks.GetOr(map[])[index := entry];
    if total == 0 then None
    else Some(meta.(chunks := Some(chunks), totalChunks := Some(total), uploadProgress := Some(Fraction(|chunks|, total))))
  }

  /** Re-sending an index never adds an entry; a new index adds exactly one. */
  lemma RecordChunkCount(meta: Meta, index: int, total: int, entry: ChunkEntry)
    requires total != 0
    ensures var before := meta.chunks.GetOr(map[]);
      var after := RecordChunk(meta, index, total, entry).value.chunks.value;
      |after| == if index in before then |before| else |before| + 1
  {
    var before := meta.chunks.GetOr(map[]);
    var after := before[index := entry];
    if index in before {
      assert after.Keys == before.Keys;
    } else {
      assert after.Keys == before.Keys + {index};
    }
  }

  /** `upload_progress` never falls while a fixed positive total is kept. */
  lemma RecordChunkProgressMonotone(meta: Meta, index: int, total: int, entry: ChunkEntry)
    requires total > 0
    requires meta.uploadProgress.Some? && meta.chunks.Some?
    requires meta.uploadProgress.value == Fraction(|meta.chunks.value|, total)
    ensures RecordChunk(meta, index, total, entry).value.uploadProgress.value >= meta.uploadProgress.value
  {
    RecordChunkCount(meta, index, total, entry);
  }

  /** What the chunk-joining loop of `complete_upload` produced: the bytes written to the
      output before it stopped, and why it stopped early, if it did. */
  datatype Assembly =
    | Joined(bytes: Bytes)
    | MissingChunk(index: int, partial: Bytes)
    | MissingFile(path: string, partial: Bytes)

  /** Joining chunks 0..n-1 in ascending index order, each read from the file its entry names. */
  function Assemble(chunks: map<int, ChunkEntry>, files: map<string, Bytes>, n: int): (a: Assembly)
    ensures a.Joined? <==> forall i :: 0 <= i < n ==> i in chunks && chunks[i].path in files
    ensures a.MissingChunk? ==>
              && 0 <= a.index < n && a.index !in chunks
              && forall i :: 0 <= i < a.index ==> i in chunks && chunks[i].path in files
    decreases n
  {
    if n <= 0 then Joined([])
    else match Assemble(chunks, files, n - 1)
      case Joined(bytes) =>
        if n - 1 !in chunks then MissingChunk(n - 1, bytes)
        else if chunks[n - 1].path !in files then MissingFile(chunks[n - 1].path, bytes)
        else Joined(bytes + files[chunks[n - 1].path])
      case other => other
  }

  /** Once the join has stopped early, joining further indices changes nothing. */
  lemma {:induction false} AssembleStopped(chunks: map<int, ChunkEntry>, files: map<string, Bytes>, i: int, n: int)
    requires i <= n && !Assemble(chunks, files, i).Joined?
    ensures Assemble(chunks, files, n) == Assemble(chunks, files, i)
    decreases n - i
  {
    if i < n {
      AssembleStopped(chunks, files, i, n - 1);
    }
  }

  /** The joining loop of `complete_upload`: for i in 0..n-1, stop at the first index without
      an entry or whose file cannot be read, otherwise append that chunk's bytes. */
  method JoinChunks(chunks: map<int, ChunkEntry>, files: map<string, Bytes>, n: int) returns (a: Assembly)
    ensures a == Assemble(chunks, files, n)
  {
    var written: Bytes := [];
    var i := 0;
    while i < n
      invariant 0 <= i && (n >= 0 ==> i <= n)
      invariant Assemble(chunks, files, i) == Joined(written)
    {
      if i !in chunks {
        AssembleStopped(chunks, files, i + 1, n);
        return MissingChunk(i, written);
      }
      var path := chunks[i].path;
      if path !in files {
        AssembleStopped(chunks, files, i + 1, n);
        return MissingFile(path, written);
      }
      written := written + files[path];
      i := i + 1;
    }
    if n < 0 {
      return Joined([]);
    }
    a := Joined(written);
  }

  /** The bytes of chunks 0..n-1 in index order. */
  function ChunkBytes(chunks: map<int, ChunkEntry>, files: map<string, Bytes>, n: nat): Bytes
    requires forall i :: 0 <= i < n ==> i in chunks && chunks[i].path in files
  {
    if n == 0 then [] else ChunkBytes(chunks, files, n - 1) + files[chunks[n - 1].path]
  }

  /** A join that succeeds writes exactly chunks 0..n-1 concatenated in index order. */
  lemma {:induction false} AssembleJoinsInOrder(chunks: map<int, ChunkEntry>, files: map<string, Bytes>, n: nat)
    requires forall i :: 0 <= i < n ==> i in chunks && chunks[i].path in files
    ensures Assemble(chunks, files, n) == Joined(ChunkBytes(chunks, files, n))
  {
    if n > 0 {
      AssembleJoinsInOrder(chunks, files, n - 1);
    }
  }

  /** The join reads only the chunk contents: two bookkeeping states that give every index the
      same bytes join to the same file, whatever order the chunks arrived in. */
  lemma {:induction false} AssembleDependsOnlyOnContents(
    c1: map<int, ChunkEntry>, f1: map<string, Bytes>, c2: map<int, ChunkEntry>, f2: map<string, Bytes>, n: nat)
    requires forall i :: 0 <= i < n ==> i in c1 && c1[i].path in f1
    requires forall i :: 0 <= i < n ==> i in c2 && c2[i].path in f2
    requires forall i :: 0 <= i < n ==> f1[c1[i].path] == f2[c2[i].path]
    ensures ChunkBytes(c1, f1, n) == ChunkBytes(c2, f2, n)
  {
    if n > 0 {
      AssembleDependsOnlyOnContents(c1, f1, c2, f2, n - 1);
    }
  }

  /** The size of the joined file is the sum of the chunk sizes. */
  lemma {:induction false} ChunkBytesLength(chunks: map<int, ChunkEntry>, files: map<string, Bytes>, n: nat)
    requires forall i :: 0 <= i < n ==> i in chunks && chunks[i].path in files
    ensures |ChunkBytes(chunks, files, n)| == SumSizes(chunks, files, n)
  {
    if n > 0 {
      ChunkBytesLength(chunks, files, n - 1);
    }
  }

  function SumSizes(chunks: map<int, ChunkEntry>, files: map<string, Bytes>, n: nat): nat
    requires forall i :: 0 <= i < n ==> i in chunks && chunks[i].path in files
  {
    if n == 0 then 0 else SumSizes(chunks, files, n - 1) + |files[chunks[n - 1].path]|
  }

  /** The `chunk_{i:04d}.bin` name of a chunk file. */
  function ChunkFileName(index: int): string {
    "chunk_" + PadInt4(index) + ".bin"
  }

  /** Distinct indices give distinct chunk file names, so a chunk never overwrites another. */
  lemma ChunkFileNameInjective(i: int, j: int)
    requires i != j
    ensures ChunkFileName(i) != ChunkFileName(j)
  {
    PadInt4Injective(i, j);
    var a, b := ChunkFileName(i), ChunkFileName(j);
    assert a[6..|a| - 4] == PadInt4(i);
    assert b[6..|b| - 4] == PadInt4(j);
  }

  /** The error `get_media_status` reports for a missing record ("media not found"). */
  const MediaNotFound := "メディアが見つかりません"

  /** `get_media_status`: "error" for a missing record, otherwise the stored status
      ("unknown" when absent) and progress (0.0 when absent). */
  function StatusOf(mediaId: string, meta: Meta): (r: StatusReply)
    ensures meta == EmptyMeta ==> r == StatusReply(mediaId, "error", 0.0, Some(MediaNotFound))
    ensures r.status == "error" && r.error == Some(MediaNotFound) <==>
              meta == EmptyMeta || (meta.status == Some("error") && meta.error == Some(MediaNotFound))
    ensures meta != EmptyMeta ==>
              && r.status == meta.status.GetOr("unknown")
              && r.progress == meta.progress.GetOr(0.0)
              && r.error == meta.error
    ensures r.mediaId == mediaId
  {
    if meta == EmptyMeta then StatusReply(mediaId, "error", 0.0, Some(MediaNotFound))
    else StatusReply(mediaId, meta.status.GetOr("unknown"), meta.progress.GetOr(0.0), meta.error)
  }
}
