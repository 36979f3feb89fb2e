/** The local-filesystem storage provider. The directory tree under the storage root becomes two
    maps: the JSON metadata files (`metadata/{user}/{media}.json`) and the data files (chunk files
    under `chunks/{user}/{media}/` and finished files under `media/{user}/`). */
module LocalStorage {
  import opened Wrappers
  import opened Strings
  import opened StorageBase

  /** The settings the provider reads: the storage root, the direct-upload threshold, the chunk
      size it advertises and the API base URL (empty when unset). */
  datatype LocalConfig = LocalConfig(root: string, maxDirectUploadSize: int, maxChunkSize: int, apiBaseUrl: string)

  /** Everything under the storage root. */
  datatype LocalDisk = LocalDisk(metadataFiles: map<string, Meta>, dataFiles: map<string, Bytes>)

  function ChunkDir(root: string, userId: string, mediaId: string): string {
    root + "/chunks/" + userId + "/" + mediaId
  }

  function ChunkPath(root: string, userId: string, mediaId: string, index: int): string {
    ChunkDir(root, userId, mediaId) + "/" + ChunkFileName(index)
  }

  function MetadataPath(root: string, userId: string, mediaId: string): string {
    root + "/metadata/" + userId + "/" + mediaId + ".json"
  }

  function FinalPath(root: string, userId: string, mediaId: string, ext: string): string {
    root + "/media/" + userId + "/" + mediaId + "." + ext
  }

  /** Two chunks of one upload never share a file. */
  lemma ChunkPathInjective(root: string, userId: string, mediaId: string, i: int, j: int)
    requires i != j
    ensures ChunkPath(root, userId, mediaId, i) != ChunkPath(root, userId, mediaId, j)
  {
    ChunkFileNameInjective(i, j);
    var prefix := ChunkDir(root, userId, mediaId) + "/";
    var a, b := ChunkPath(root, userId, mediaId, i), ChunkPath(root, userId, mediaId, j);
    assert a[|prefix|..] == ChunkFileName(i);
    assert b[|prefix|..] == ChunkFileName(j);
  }

  function BaseUrl(config: LocalConfig): string {
    if config.apiBaseUrl == "" then "http://localhost:8000" else config.apiBaseUrl
  }

  /** `_load_metadata`: a missing file loads as `{}`. */
  function LoadMeta(disk: LocalDisk, path: string): (m: Meta)
    ensures path !in disk.metadataFiles ==> m == EmptyMeta
  {
    if path in disk.metadataFiles then disk.metadataFiles[path] else EmptyMeta
  }

  /** The record `generate_upload_url` saves: status "pending", progress 0.0. */
  function PendingMeta(mediaId: string, fileType: string, fileSize: int, userId: string): (m: Meta)
    ensures m.status == Some("pending") && m.progress == Some(0.0) && m.chunks.None?
    ensures m.filename == Some(mediaId + "." + ExtensionFor(fileType))
    ensures m != EmptyMeta
  {
    EmptyMeta.(mediaId := Some(mediaId), userId := Some(userId), fileType := Some(fileType),
      fileSize := Some(fileSize), status := Some("pending"), progress := Some(0.0),
      filename := Some(mediaId + "." + ExtensionFor(fileType)))
  }

  /** The reply of `generate_upload_url`: chunked exactly when the size is above the direct-upload
      threshold, and the same test-upload URL in both cases. */
  function LocalTicket(config: LocalConfig, mediaId: string, fileSize: int): (t: UploadTicket)
    ensures t.chunkUploadEnabled <==> fileSize > config.maxDirectUploadSize
    ensures t.uploadUrl == Some(BaseUrl(config) + "/api/v1/media/test-upload/" + mediaId)
    ensures t.mediaId == mediaId && t.maxChunkSize == config.maxChunkSize
  {
    var url := BaseUrl(config) + "/api/v1/media/test-upload/" + mediaId;
    if fileSize > config.maxDirectUploadSize then UploadTicket(mediaId, Some(url), true, config.maxChunkSize)
    else UploadTicket(mediaId, Some(url), false, config.maxChunkSize)
  }

  /** `upload_chunk` as one atomic step: the chunk file is written first; the metadata is then
      updated by RecordChunk, and a total of 0 raises before the metadata is saved. */
  function UploadChunkOn(disk: LocalDisk, root: string, mediaId: string, index: int, total: int, data: Bytes, userId: string)
    : (r: (LocalDisk, Result<ChunkReceipt, StorageError>))
    ensures var path := ChunkPath(root, userId, mediaId, index);
      && r.0.dataFiles == disk.dataFiles[path := data]
      && (r.1.Success? <==> total != 0)
      && (r.1.Success? ==> r.1.value == ChunkReceipt(mediaId, index, |data|, "success"))
      && (total == 0 ==> r.0.metadataFiles == disk.metadataFiles)
      && (total != 0 ==> r.0.metadataFiles.Keys == disk.metadataFiles.Keys + {MetadataPath(root, userId, mediaId)})
    ensures var metaPath := MetadataPath(root, userId, mediaId);
      total != 0 ==> r.0.metadataFiles == disk.metadataFiles[metaPath :=
        RecordChunk(LoadMeta(disk, metaPath), index, total, ChunkEntry(|data|, ChunkPath(root, userId, mediaId, index))).value]
  {
    var path := ChunkPath(root, userId, mediaId, index);
    var files := disk.dataFiles[path := data];
    var metaPath := MetadataPath(root, userId, mediaId);
    match RecordChunk(LoadMeta(disk, metaPath), index, total, ChunkEntry(|data|, path))
    case None => (LocalDisk(disk.metadataFiles, files), Failure(DivisionByZero))
    case Some(meta) =>
      (LocalDisk(disk.metadataFiles[metaPath := meta], files), Success(ChunkReceipt(mediaId, index, |data|, "success")))
  }

  /** The record a successful `complete_upload` saves: status "processing", progress 0.0,
      `file_path` the final file, and the MD5 stored when one is given, never compared. */
  function Finalized(meta: Meta, finalPath: string, md5Hash: Option<string>): (m: Meta)
    ensures m.status == Some("processing") && m.progress == Some(0.0) && m.filePath == Some(finalPath)
    ensures m.md5Hash == (if md5Hash.Some? && md5Hash.value != "" then md5Hash else meta.md5Hash)
    ensures m.(status := meta.status, progress := meta.progress, filePath := meta.filePath, md5Hash := meta.md5Hash) == meta
  {
    meta.(status := Some("processing"), progress := Some(0.0), filePath := Some(finalPath),
      md5Hash := if md5Hash.Some? && md5Hash.value != "" then md5Hash else meta.md5Hash)
  }

  /** The final file of an upload, named by the extension of the record's file type. */
  function FinalFile(meta: Meta, root: string, userId: string, mediaId: string): string {
    FinalPath(root, userId, mediaId, ExtensionFor(meta.fileType.GetOr("application/octet-stream")))
  }

  /** `complete_upload` as one atomic step. */
  function CompleteOn(disk: LocalDisk, root: string, mediaId: string, total: int, md5Hash: Option<string>, userId: string)
    : (r: (LocalDisk, Result<CompletionReply, StorageError>))
    ensures var meta := LoadMeta(disk, MetadataPath(root, userId, mediaId));
      (meta.chunks.None? || |meta.chunks.value| != total) ==>
        && r.0 == disk
        && r.1 == Success(CompletionReply(mediaId, "error", 0.0, Some(ChunkCountMismatch(total, |meta.chunks.GetOr(map[])|))))
    ensures var meta := LoadMeta(disk, MetadataPath(root, userId, mediaId));
      (r.1.Success? && r.1.value.status == "processing") <==>
        && meta.chunks.Some? && |meta.chunks.value| == total
        && forall i :: 0 <= i < total ==> i in meta.chunks.value && meta.chunks.value[i].path in disk.dataFiles
    ensures r.1.Success? ==> r.1.value.progress == 0.0 && r.1.value.mediaId == mediaId
    ensures r.1.Success? && r.1.value.status == "error" ==> r.0.metadataFiles == disk.metadataFiles
    ensures var metaPath := MetadataPath(root, userId, mediaId);
      var meta := LoadMeta(disk, metaPath);
      r.1 == Success(CompletionReply(mediaId, "processing", 0.0, None)) ==>
        && r.0.metadataFiles == disk.metadataFiles[metaPath := Finalized(meta, FinalFile(meta, root, userId, mediaId), md5Hash)]
        && r.0.dataFiles == disk.dataFiles[FinalFile(meta, root, userId, mediaId) := ChunkBytes(meta.chunks.value, disk.dataFiles, total)]
  {
    var metaPath := MetadataPath(root, userId, mediaId);
    var meta := LoadMeta(disk, metaPath);
    if meta.chunks.None? || |meta.chunks.value| != total then
      (disk, Success(CompletionReply(mediaId, "error", 0.0, Some(ChunkCountMismatch(total, |meta.chunks.GetOr(map[])|)))))
    else
      var finalPath := FinalFile(meta, root, userId, mediaId);
      match Assemble(meta.chunks.value, disk.dataFiles, total)
      case MissingChunk(i, partial) =>
        (disk.(dataFiles := disk.dataFiles[finalPath := partial]),
         Success(CompletionReply(mediaId, "error", 0.0, Some(ChunkNotFound(i)))))
      case MissingFile(p, partial) =>
        (disk.(dataFiles := disk.dataFiles[finalPath := partial]), Failure(FileNotFound(p)))
      case Joined(bytes) =>
        AssembleJoinsInOrder(meta.chunks.value, disk.dataFiles, total);
        (LocalDisk(disk.metadataFiles[metaPath := Finalized(meta, finalPath, md5Hash)], disk.dataFiles[finalPath := bytes]),
         Success(CompletionReply(mediaId, "processing", 0.0, None)))
  }

  /** `delete_file` as one atomic step: nothing for an unknown id; otherwise the finished file,
      every file under the upload's chunk directory and the metadata file are removed. */
  function DeleteOn(disk: LocalDisk, root: string, mediaId: string, userId: string): (r: (LocalDisk, bool))
    ensures var metaPath := MetadataPath(root, userId, mediaId);
      && (r.1 <==> LoadMeta(disk, metaPath) != EmptyMeta)
      && (!r.1 ==> r.0 == disk)
      && (r.1 ==> metaPath !in r.0.metadataFiles && r.0.metadataFiles == disk.metadataFiles - {metaPath})
      && (r.1 ==> forall p :: p in r.0.dataFiles ==> !StartsWith(p, ChunkDir(root, userId, mediaId) + "/"))
      && r.0.dataFiles.Keys <= disk.dataFiles.Keys
    ensures var meta := LoadMeta(disk, MetadataPath(root, userId, mediaId));
      r.1 && meta.filePath.Some? ==> meta.filePath.value !in r.0.dataFiles
    ensures var meta := LoadMeta(disk, MetadataPath(root, userId, mediaId));
      r.1 ==> forall p :: p in disk.dataFiles && !StartsWith(p, ChunkDir(root, userId, mediaId) + "/")
                           && (meta.filePath.None? || p != meta.filePath.value)
                      ==> p in r.0.dataFiles && r.0.dataFiles[p] == disk.dataFiles[p]
  {
    var metaPath := MetadataPath(root, userId, mediaId);
    var meta := LoadMeta(disk, metaPath);
    if meta == EmptyMeta then (disk, false)
    else
      var dir := ChunkDir(root, userId, mediaId) + "/";
      var files := map p | p in disk.dataFiles && (meta.filePath.None? || p != meta.filePath.value) && !StartsWith(p, dir)
        :: disk.dataFiles[p];
      (LocalDisk(disk.metadataFiles - {metaPath}, files), true)
  }

  class LocalStorageProvider {
    const config: LocalConfig
    var metadataFiles: map<string, Meta>
    var dataFiles: map<string, Bytes>

    function Disk(): LocalDisk
      reads this
    {
      LocalDisk(metadataFiles, dataFiles)
    }

    constructor (config: LocalConfig)
      ensures this.config == config && Disk() == LocalDisk(map[], map[])
    {
      this.config := config;
      metadataFiles := map[];
      dataFiles := map[];
    }

    method GenerateUploadUrl(mediaId: string, fileType: string, fileSize: int, userId: string) returns (t: UploadTicket)
      modifies this
      ensures metadataFiles == old(metadataFiles)[MetadataPath(config.root, userId, mediaId) := PendingMeta(mediaId, fileType, fileSize, userId)]
      ensures dataFiles == old(dataFiles)
      ensures t == LocalTicket(config, mediaId, fileSize)
    {
      metadataFiles := metadataFiles[MetadataPath(config.root, userId, mediaId) := PendingMeta(mediaId, fileType, fileSize, userId)];
      t := LocalTicket(config, mediaId, fileSize);
    }

    method UploadChunk(mediaId: string, chunkIndex: int, totalChunks: int, data: Bytes, userId: string)
      returns (r: Result<ChunkReceipt, StorageError>)
      modifies this
      ensures (Disk(), r) == UploadChunkOn(old(Disk()), config.root, mediaId, chunkIndex, totalChunks, data, userId)
    {
      var chunkPath := ChunkPath(config.root, userId, mediaId, chunkIndex);
      dataFiles := dataFiles[chunkPath := data];
      var metaPath := MetadataPath(config.root, userId, mediaId);
      var meta := if metaPath in metadataFiles then metadataFiles[metaPath] else EmptyMeta;
      var chunks := if meta.chunks.Some? then meta.chunks.value else map[];
      chunks := chunks[chunkIndex := ChunkEntry(|data|, chunkPath)];
      meta := meta.(chunks := Some(chunks), totalChunks := Some(totalChunks));
      if totalChunks == 0 {
        return Failure(DivisionByZero);
      }
      meta := meta.(uploadProgress := Some(Fraction(|chunks|, totalChunks)));
      metadataFiles := metadataFiles[metaPath := meta];
      r := Success(ChunkReceipt(mediaId, chunkIndex, |data|, "success"));
    }

    method CompleteUpload(mediaId: string, totalChunks: int, totalSize: int, md5Hash: Option<string>, userId: string)
      returns (r: Result<CompletionReply, StorageError>)
      modifies this
      ensures (Disk(), r) == CompleteOn(old(Disk()), config.root, mediaId, totalChunks, md5Hash, userId)
    {
      var metaPath := MetadataPath(config.root, userId, mediaId);
      var meta := if metaPath in metadataFiles then metadataFiles[metaPath] else EmptyMeta;
      if meta.chunks.None? || |meta.chunks.value| != totalChunks {
        var actual := if meta.chunks.Some? then |meta.chunks.value| else 0;
        return Success(CompletionReply(mediaId, "error", 0.0, Some(ChunkCountMismatch(totalChunks, actual))));
      }
      var chunks := meta.chunks.value;
      var ext := ExtensionFor(if meta.fileType.Some? then meta.fileType.value else "application/octet-stream");
      var finalPath := FinalPath(config.root, userId, mediaId, ext);
      // The output file is opened (created empty) before the first chunk is read, and holds
      // whatever was appended when the loop stops.
      var joined := JoinChunks(chunks, dataFiles, totalChunks);
      match joined {
        case MissingChunk(i, partial) =>
          dataFiles := dataFiles[finalPath := partial];
          return Success(CompletionReply(mediaId, "error", 0.0, Some(ChunkNotFound(i))));
        case MissingFile(path, partial) =>
          dataFiles := dataFiles[finalPath := partial];
          return Failure(FileNotFound(path));
        case Joined(bytes) =>
          dataFiles := dataFiles[finalPath := bytes];
      }
      meta := meta.(status := Some("processing"), progress := Some(0.0), filePath := Some(finalPath));
      if md5Hash.Some? && md5Hash.value != "" {
        meta := meta.(md5Hash := md5Hash);
      }
      metadataFiles := metadataFiles[metaPath := meta];
      r := Success(CompletionReply(mediaId, "processing", 0.0, None));
    }

    method GetMediaStatus(mediaId: string, userId: string) returns (r: StatusReply)
      ensures r == StatusOf(mediaId, LoadMeta(Disk(), MetadataPath(config.root, userId, mediaId)))
    {
      var metaPath := MetadataPath(config.root, userId, mediaId);
      var meta := if metaPath in metadataFiles then metadataFiles[metaPath] else EmptyMeta;
      r := StatusOf(mediaId, meta);
    }

    /** `get_file_url`: FileNotFoundError until the upload has been finalized. */
    method GetFileUrl(mediaId: string, userId: string) returns (r: Result<string, StorageError>)
      ensures var meta := LoadMeta(Disk(), MetadataPath(config.root, userId, mediaId));
        r.Success? <==> meta.filePath.Some?
      ensures r.Success? ==> r.value == BaseUrl(config) + "/api/v1/media/download/" + mediaId
    {
      var metaPath := MetadataPath(config.root, userId, mediaId);
      var meta := if metaPath in metadataFiles then metadataFiles[metaPath] else EmptyMeta;
      if meta == EmptyMeta || meta.filePath.None? {
        return Failure(FileNotFound(mediaId));
      }
      r := Success(BaseUrl(config) + "/api/v1/media/download/" + mediaId);
    }

    method DeleteFile(mediaId: string, userId: string) returns (ok: bool)
      modifies this
      ensures (Disk(), ok) == DeleteOn(old(Disk()), config.root, mediaId, userId)
    {
      var metaPath := MetadataPath(config.root, userId, mediaId);
      var meta := if metaPath in metadataFiles then metadataFiles[metaPath] else EmptyMeta;
      if meta == EmptyMeta {
        return false;
      }
      if meta.filePath.Some? {
        dataFiles := map p | p in dataFiles && p != meta.filePath.value :: dataFiles[p];
      }
      var dir := ChunkDir(config.root, userId, mediaId) + "/";
      dataFiles := map p | p in dataFiles && !StartsWith(p, dir) :: dataFiles[p];
      assert dataFiles == DeleteOn(old(Disk()), config.root, mediaId, userId).0.dataFiles;
      metadataFiles := metadataFiles - {metaPath};
      ok := true;
    }
  }

  // ---------------------------------------------------------------------------------------------
  // Several uploads in a row

  /** The disk after a sequence of `upload_chunk` calls (index, bytes) for one upload. */
  function UploadAll(disk: LocalDisk, root: string, mediaId: string, total: int, uploads: seq<(int, Bytes)>, userId: string): LocalDisk
    requires total != 0
  {
    if uploads == [] then disk
    else
      var last := uploads[|uploads| - 1];
      UploadChunkOn(UploadAll(disk, root, mediaId, total, uploads[..|uploads| - 1], userId), root, mediaId, last.0, total, last.1, userId).0
  }

  /** The bytes of the last upload of chunk `index`, if there was one. */
  function LastWrite(uploads: seq<(int, Bytes)>, index: int): Option<Bytes> {
    if uploads == [] then None
    else if uploads[|uploads| - 1].0 == index then Some(uploads[|uploads| - 1].1)
    else LastWrite(uploads[..|uploads| - 1], index)
  }

  /** The indices that occur in a sequence of uploads. */
  function Indices(uploads: seq<(int, Bytes)>): (r: set<int>)
    ensures forall k :: k in r ==> LastWrite(uploads, k).Some?
  {
    if uploads == [] then {} else Indices(uploads[..|uploads| - 1]) + {uploads[|uploads| - 1].0}
  }

  /** The set {0, ..., n-1}. */
  function Range(n: nat): (r: set<int>)
    ensures forall i :: i in r <==> 0 <= i < n
    ensures |r| == n
  {
    if n == 0 then {} else Range(n - 1) + {n - 1}
  }

  /** The chunk table that uploads leave behind, starting from `table`: each upload puts its
      entry over any earlier entry for the same index. */
  function ChunkTable(table: map<int, ChunkEntry>, root: string, userId: string, mediaId: string, uploads: seq<(int, Bytes)>)
    : (r: map<int, ChunkEntry>)
    ensures r.Keys == table.Keys + Indices(uploads)
  {
    if uploads == [] then table
    else
      var last := uploads[|uploads| - 1];
      ChunkTable(table, root, userId, mediaId, uploads[..|uploads| - 1])[last.0 := ChunkEntry(|last.1|, ChunkPath(root, userId, mediaId, last.0))]
  }

  /** The data files that uploads leave behind, starting from `files`. */
  function ChunkFiles(files: map<string, Bytes>, root: string, userId: string, mediaId: string, uploads: seq<(int, Bytes)>)
    : map<string, Bytes>
  {
    if uploads == [] then files
    else
      var last := uploads[|uploads| - 1];
      ChunkFiles(files, root, userId, mediaId, uploads[..|uploads| - 1])[ChunkPath(root, userId, mediaId, last.0) := last.1]
  }

  /** Any non-empty sequence of chunk uploads leaves the chunk table and the chunk files that
      the uploads build over what was there before. */
  lemma {:induction false} UploadAllBuildsTable(
    disk: LocalDisk, root: string, mediaId: string, total: int, uploads: seq<(int, Bytes)>, userId: string)
    requires total != 0 && uploads != []
    ensures var metaPath := MetadataPath(root, userId, mediaId);
      var d := UploadAll(disk, root, mediaId, total, uploads, userId);
      && LoadMeta(d, metaPath).chunks
         == Some(ChunkTable(LoadMeta(disk, metaPath).chunks.GetOr(map[]), root, userId, mediaId, uploads))
      && d.dataFiles == ChunkFiles(disk.dataFiles, root, userId, mediaId, uploads)
  {
    var front := uploads[..|uploads| - 1];
    if front != [] {
      UploadAllBuildsTable(disk, root, mediaId, total, front, userId);
    }
  }

  /** In the table and files that uploads build, in any order and with any repeats, every
      uploaded chunk k is recorded under its own file and that file holds the bytes of the LAST
      upload of k. */
  lemma {:induction false} ChunkTableKeepsLastWrite(
    table: map<int, ChunkEntry>, files: map<string, Bytes>, root: string, userId: string, mediaId: string,
    uploads: seq<(int, Bytes)>)
    ensures var t := ChunkTable(table, root, userId, mediaId, uploads);
      var f := ChunkFiles(files, root, userId, mediaId, uploads);
      forall k :: k in Indices(uploads) ==>
        && t[k].path == ChunkPath(root, userId, mediaId, k)
        && ChunkPath(root, userId, mediaId, k) in f
        && f[ChunkPath(root, userId, mediaId, k)] == LastWrite(uploads, k).value
  {
    if uploads != [] {
      var front := uploads[..|uploads| - 1];
      var last := uploads[|uploads| - 1];
      ChunkTableKeepsLastWrite(table, files, root, userId, mediaId, front);
      forall k | k in Indices(front) && k != last.0
        ensures ChunkPath(root, userId, mediaId, k) != ChunkPath(root, userId, mediaId, last.0)
      {
        ChunkPathInjective(root, userId, mediaId, k, last.0);
      }
    }
  }

  /** `total` chunk uploads that cover exactly the indices 0..total-1, sent in any order and
      with any resends, on a fresh ticket: `complete_upload` succeeds and writes the last bytes
      sent for each index, concatenated in ascending index order. */
  lemma FinalizeAfterUploads(
    disk: LocalDisk, root: string, mediaId: string, total: nat, uploads: seq<(int, Bytes)>, userId: string, md5Hash: Option<string>)
    requires total > 0
    requires LoadMeta(disk, MetadataPath(root, userId, mediaId)).chunks.None?
    requires Indices(uploads) == Range(total)
    ensures forall i :: 0 <= i < total ==> LastWrite(uploads, i).Some?
    ensures var d := UploadAll(disk, root, mediaId, total, uploads, userId);
      var r := CompleteOn(d, root, mediaId, total, md5Hash, userId);
      var meta := LoadMeta(d, MetadataPath(root, userId, mediaId));
      && r.1 == Success(CompletionReply(mediaId, "processing", 0.0, None))
      && r.0.dataFiles[FinalPath(root, userId, mediaId, ExtensionFor(meta.fileType.GetOr("application/octet-stream")))]
         == LastBytes(uploads, total)
  {
    var d := UploadAll(disk, root, mediaId, total, uploads, userId);
    assert uploads != [] by {
      assert total - 1 in Indices(uploads);
    }
    UploadAllBuildsTable(disk, root, mediaId, total, uploads, userId);
    UploadsCoverTable(disk.dataFiles, root, userId, mediaId, uploads, total);
    ChunksJoinToLastBytes(ChunkTable(map[], root, userId, mediaId, uploads),
      ChunkFiles(disk.dataFiles, root, userId, mediaId, uploads), uploads, total);
    CompleteOnJoined(d, root, mediaId, total, md5Hash, userId, LastBytes(uploads, total));
  }

  /** A finalize whose chunks join writes exactly the joined bytes to the final path. */
  lemma CompleteOnJoined(disk: LocalDisk, root: string, mediaId: string, total: int, md5Hash: Option<string>, userId: string, bytes: Bytes)
    requires var meta := LoadMeta(disk, MetadataPath(root, userId, mediaId));
      && meta.chunks.Some? && |meta.chunks.value| == total
      && Assemble(meta.chunks.value, disk.dataFiles, total) == Joined(bytes)
    ensures var meta := LoadMeta(disk, MetadataPath(root, userId, mediaId));
      var r := CompleteOn(disk, root, mediaId, total, md5Hash, userId);
      && r.1 == Success(CompletionReply(mediaId, "processing", 0.0, None))
      && r.0.dataFiles == disk.dataFiles[FinalPath(root, userId, mediaId, ExtensionFor(meta.fileType.GetOr("application/octet-stream"))) := bytes]
  {
  }

  /** Uploads covering exactly 0..total-1, over an empty table, build a table of `total`
      entries whose files hold the last bytes sent for each index. */
  lemma UploadsCoverTable(
    files: map<string, Bytes>, root: string, userId: string, mediaId: string, uploads: seq<(int, Bytes)>, total: nat)
    requires Indices(uploads) == Range(total)
    ensures var t := ChunkTable(map[], root, userId, mediaId, uploads);
      var f := ChunkFiles(files, root, userId, mediaId, uploads);
      && |t| == total
      && forall i :: 0 <= i < total ==>
        && i in t && t[i].path in f && LastWrite(uploads, i).Some?
        && f[t[i].path] == LastWrite(uploads, i).value
  {
    var t := ChunkTable(map[], root, userId, mediaId, uploads);
    assert |t| == |Range(total)| by {
      assert t.Keys == Range(total);
    }
    ChunkTableKeepsLastWrite(map[], files, root, userId, mediaId, uploads);
  }

  /** Chunk files holding the last bytes sent join to those bytes in index order. */
  lemma ChunksJoinToLastBytes(chunks: map<int, ChunkEntry>, files: map<string, Bytes>, uploads: seq<(int, Bytes)>, n: nat)
    requires forall i :: 0 <= i < n ==>
               && i in chunks && chunks[i].path in files && LastWrite(uploads, i).Some?
               && files[chunks[i].path] == LastWrite(uploads, i).value
    ensures Assemble(chunks, files, n) == Joined(LastBytes(uploads, n))
  {
    AssembleJoinsInOrder(chunks, files, n);
    ChunkBytesAreLastBytes(chunks, files, uploads, n);
  }

  /** The last bytes sent for 0..n-1, concatenated in index order. */
  function LastBytes(uploads: seq<(int, Bytes)>, n: nat): Bytes
    requires forall i :: 0 <= i < n ==> LastWrite(uploads, i).Some?
  {
    if n == 0 then [] else LastBytes(uploads, n - 1) + LastWrite(uploads, n - 1).value
  }

  lemma {:induction false} ChunkBytesAreLastBytes(
    chunks: map<int, ChunkEntry>, files: map<string, Bytes>, uploads: seq<(int, Bytes)>, n: nat)
    requires forall i :: 0 <= i < n ==>
               && i in chunks && chunks[i].path in files && LastWrite(uploads, i).Some?
               && files[chunks[i].path] == LastWrite(uploads, i).value
    ensures ChunkBytes(chunks, files, n) == LastBytes(uploads, n)
  {
    if n > 0 {
      ChunkBytesAreLastBytes(chunks, files, uploads, n - 1);
    }
  }

  /** A finalize that finds every chunk deletes none of them: the chunk files are still there. */
  lemma FinalizeKeepsChunks(disk: LocalDisk, root: string, mediaId: string, total: int, md5Hash: Option<string>, userId: string, p: string)
    requires p in disk.dataFiles && StartsWith(p, root + "/chunks/")
    ensures var r := CompleteOn(disk, root, mediaId, total, md5Hash, userId);
      p in r.0.dataFiles && r.0.dataFiles[p] == disk.dataFiles[p]
  {
    var meta := LoadMeta(disk, MetadataPath(root, userId, mediaId));
    var ext := ExtensionFor(meta.fileType.GetOr("application/octet-stream"));
    var finalPath := FinalPath(root, userId, mediaId, ext);
    assert finalPath[..|root| + 7] == root + "/media/";
    assert p[..|root| + 7] != root + "/media/" by {
      assert p[..|root| + 8] == root + "/chunks/";
      assert p[|root| + 1] == 'c';
    }
  }

  /** `total_size` and the MD5 never decide anything: two calls that differ only in them give the
      same state, and a hash is kept without being compared. */
  lemma FinalizeIgnoresChecksum(disk: LocalDisk, root: string, mediaId: string, total: int, userId: string, md5: string)
    requires md5 != ""
    ensures var a := CompleteOn(disk, root, mediaId, total, None, userId);
      var b := CompleteOn(disk, root, mediaId, total, Some(md5), userId);
      && a.1 == b.1 && a.0.dataFiles == b.0.dataFiles
      && (b.1.Success? && b.1.value.status == "processing" ==>
            LoadMeta(b.0, MetadataPath(root, userId, mediaId)).md5Hash == Some(md5))
  {
  }
}
