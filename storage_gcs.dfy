/** The Cloud Storage provider. The bucket becomes one map from object name to object; an object
    is either raw bytes or a JSON metadata document the provider wrote. Temporary files that
    `complete_upload` creates and never removes are kept in a list, so that leaks are visible.
    The SDK calls that can fail are given their outcome as parameters. */
module GcsStorage {
  import opened Wrappers
  import opened Strings
  import opened StorageBase
  import opened Seqs

  /** The settings the provider reads. */
  datatype GcsConfig = GcsConfig(bucketName: string, maxDirectUploadSize: int, maxChunkSize: int)

  /** One object in the bucket. */
  datatype Blob = Data(bytes: Bytes) | Json(meta: Meta)

  /** `_get_blob_path`: `{user}/{media}.{ext}`, or `{user}/{media}` without an extension. */
  function BlobPath(userId: string, mediaId: string, ext: string): string {
    if ext != "" then userId + "/" + mediaId + "." + ext else userId + "/" + mediaId
  }

  /** `_get_chunk_blob_path` */
  function ChunkBlobPath(userId: string, mediaId: string, index: int): string {
    userId + "/" + mediaId + "/chunks/" + ChunkFileName(index)
  }

  /** `_get_metadata_blob_path` */
  function MetadataBlobPath(userId: string, mediaId: string): string {
    userId + "/" + mediaId + "/metadata.json"
  }

  /** `_get_photo_scan_blob_path` */
  function PhotoBlobPath(noteId: string, pageId: string): string {
    noteId + "/" + pageId + ".jpg"
  }

  /** Where `_save_photo_scan_metadata` writes. */
  function PhotoMetadataPath(noteId: string, pageId: string): string {
    noteId + "/" + pageId + "_metadata.json"
  }

  /** Two chunks of one upload never share an object. */
  lemma ChunkBlobPathInjective(userId: string, mediaId: string, i: int, j: int)
    requires i != j
    ensures ChunkBlobPath(userId, mediaId, i) != ChunkBlobPath(userId, mediaId, j)
  {
    ChunkFileNameInjective(i, j);
    var prefix := userId + "/" + mediaId + "/chunks/";
    var a, b := ChunkBlobPath(userId, mediaId, i), ChunkBlobPath(userId, mediaId, j);
    assert a[|prefix|..] == ChunkFileName(i);
    assert b[|prefix|..] == ChunkFileName(j);
  }

  /** A chunk object (ending in ".bin") is never any upload's metadata object (ending in ".json"). */
  lemma ChunkIsNotMetadata(userId: string, mediaId: string, i: int, otherUser: string, otherMedia: string)
    ensures ChunkBlobPath(userId, mediaId, i) != MetadataBlobPath(otherUser, otherMedia)
  {
    var a, b := ChunkBlobPath(userId, mediaId, i), MetadataBlobPath(otherUser, otherMedia);
    assert a[|a| - 1] == 'n';
    assert b[|b| - 1] == 'n';
    assert a[|a| - 2] == 'i';
    assert b[|b| - 2] == 'o';
  }

  /** Photo-scan metadata (`…_metadata.json`) never lands on an upload's metadata object
      (`…/metadata.json`): the character before "metadata.json" differs. */
  lemma PhotoMetadataIsNotUploadMetadata(noteId: string, pageId: string, userId: string, mediaId: string)
    ensures PhotoMetadataPath(noteId, pageId) != MetadataBlobPath(userId, mediaId)
  {
    var a, b := PhotoMetadataPath(noteId, pageId), MetadataBlobPath(userId, mediaId);
    if |a| == |b| {
      assert a[|a| - 14] == '_';
      assert b[|b| - 14] == '/';
    }
  }

  /** `_load_metadata_from_gcs`: `{}` when the object is missing, when the read raises, and when
      the object is not a JSON document. */
  function LoadRecord(bucket: map<string, Blob>, path: string, readFails: bool): (m: Meta)
    ensures (readFails || path !in bucket || bucket[path].Data?) ==> m == EmptyMeta
    ensures !readFails && path in bucket && bucket[path].Json? ==> m == bucket[path].meta
  {
    if readFails || path !in bucket then EmptyMeta
    else match bucket[path]
      case Data(_) => EmptyMeta
      case Json(meta) => meta
  }

  /** The bytes a download returns: the stored bytes, or the JSON text of a metadata document. */
  function Contents(bucket: map<string, Blob>, dumps: Meta -> Bytes): (files: map<string, Bytes>)
    ensures files.Keys == bucket.Keys
    ensures forall p :: p in bucket && bucket[p].Data? ==> files[p] == bucket[p].bytes
  {
    map p | p in bucket :: match bucket[p] case Data(b) => b case Json(m) => dumps(m)
  }

  /** The record `generate_upload_url` saves: status "pending", progress 0.0, and `blob_path`
      already pointing at the final object. */
  function GcsPendingMeta(mediaId: string, fileType: string, fileSize: int, userId: string): (m: Meta)
    ensures m.status == Some("pending") && m.progress == Some(0.0) && m.chunks.None?
    ensures m.blobPath == Some(BlobPath(userId, mediaId, ExtensionFor(fileType)))
    ensures m != EmptyMeta
  {
    EmptyMeta.(mediaId := Some(mediaId), userId := Some(userId), fileType := Some(fileType),
      fileSize := Some(fileSize), status := Some("pending"), progress := Some(0.0),
      blobPath := Some(BlobPath(userId, mediaId, ExtensionFor(fileType))))
  }

  /** The reply of `generate_upload_url`: no URL and chunked exactly when the size is above the
      direct-upload threshold, otherwise the signed PUT URL. */
  function GcsTicket(config: GcsConfig, mediaId: string, fileSize: int, signedUrl: string): (t: UploadTicket)
    ensures t.uploadUrl.None? <==> fileSize > config.maxDirectUploadSize
    ensures t.chunkUploadEnabled <==> t.uploadUrl.None?
    ensures t.uploadUrl.Some? ==> t.uploadUrl.value == signedUrl
    ensures t.mediaId == mediaId && t.maxChunkSize == config.maxChunkSize
  {
    if fileSize > config.maxDirectUploadSize then UploadTicket(mediaId, None, true, config.maxChunkSize)
    else UploadTicket(mediaId, Some(signedUrl), false, config.maxChunkSize)
  }

  /** `upload_chunk` as one atomic step: the chunk object is written first, then the loaded
      record gets the chunk entry and is saved. A chunk write that raises changes nothing; a
      total of 0 raises before the save; a save that raises leaves the chunk object written and
      the record as it was. */
  function UploadChunkOn(bucket: map<string, Blob>, mediaId: string, index: int, total: int, data: Bytes, userId: string,
                         readFails: bool, writeFails: bool, saveFails: bool)
    : (r: (map<string, Blob>, Result<ChunkReceipt, StorageError>))
    ensures (r.1.Success? <==> !writeFails && total != 0 && !saveFails)
    ensures r.1.Success? ==> r.1.value == ChunkReceipt(mediaId, index, |data|, "success")
    ensures writeFails ==> r == (bucket, Failure(CloudCallFailed))
    ensures var path := ChunkBlobPath(userId, mediaId, index);
      && (!writeFails && total == 0 ==> r == (bucket[path := Data(data)], Failure(DivisionByZero)))
      && (!writeFails && total != 0 && saveFails ==> r == (bucket[path := Data(data)], Failure(CloudCallFailed)))
    ensures var path := ChunkBlobPath(userId, mediaId, index);
      var metaPath := MetadataBlobPath(userId, mediaId);
      r.1.Success? ==> r.0 == bucket[path := Data(data)][metaPath :=
        Json(RecordChunk(LoadRecord(bucket, metaPath, readFails), index, total, ChunkEntry(|data|, path)).value)]
  {
    var path := ChunkBlobPath(userId, mediaId, index);
    var metaPath := MetadataBlobPath(userId, mediaId);
    var written := bucket[path := Data(data)];
    ChunkIsNotMetadata(userId, mediaId, index, userId, mediaId);
    assert LoadRecord(written, metaPath, readFails) == LoadRecord(bucket, metaPath, readFails);
    if writeFails then (bucket, Failure(CloudCallFailed))
    else match RecordChunk(LoadRecord(written, metaPath, readFails), index, total, ChunkEntry(|data|, path))
    case None => (written, Failure(DivisionByZero))
    case Some(meta) =>
      if saveFails then (written, Failure(CloudCallFailed))
      else (written[metaPath := Json(meta)], Success(ChunkReceipt(mediaId, index, |data|, "success")))
  }

  /** A chunk upload whose metadata read fails saves a record that holds only the chunk
      bookkeeping: everything `generate_upload_url` stored is lost, this chunk is the only entry
      and the progress is 1/total. */
  lemma UploadChunkAfterReadFault(bucket: map<string, Blob>, mediaId: string, index: int, total: int, data: Bytes, userId: string)
    requires total != 0
    ensures var metaPath := MetadataBlobPath(userId, mediaId);
      var b := UploadChunkOn(bucket, mediaId, index, total, data, userId, true, false, false).0;
      && metaPath in b && b[metaPath].Json?
      && b[metaPath].meta == EmptyMeta.(chunks := Some(map[index := ChunkEntry(|data|, ChunkBlobPath(userId, mediaId, index))]),
           totalChunks := Some(total), uploadProgress := Some(Fraction(1, total)))
  {
    var entry := ChunkEntry(|data|, ChunkBlobPath(userId, mediaId, index));
    assert |map[index := entry]| == 1 by {
      assert map[index := entry].Keys == {index};
    }
  }

  /** The record a successful finalize saves. */
  function Finalized(meta: Meta, finalPath: string, md5Hash: Option<string>): (m: Meta)
    ensures m.status == Some("processing") && m.progress == Some(0.0) && m.blobPath == Some(finalPath)
    ensures m.chunks == meta.chunks && m.fileType == meta.fileType
    ensures m.md5Hash == (if md5Hash.Some? && md5Hash.value != "" then md5Hash else meta.md5Hash)
  {
    meta.(status := Some("processing"), progress := Some(0.0), blobPath := Some(finalPath),
      md5Hash := if md5Hash.Some? && md5Hash.value != "" then md5Hash else meta.md5Hash)
  }

  /** The object `complete_upload` writes: named by the record's file type. */
  function FinalBlobPath(meta: Meta, userId: string, mediaId: string): string {
    BlobPath(userId, mediaId, ExtensionFor(meta.fileType.GetOr("application/octet-stream")))
  }

  /** The observable state of the provider: the bucket and the leaked temporary files. */
  datatype GcsState = GcsState(bucket: map<string, Blob>, tempFiles: seq<Bytes>)

  /** `complete_upload` as one atomic step.
      - A missing record or a count mismatch: "error", nothing changes.
      - A missing index: "error", and the temporary file with the chunks joined so far is left.
      - A chunk object that does not exist: the download raises, the temporary file is left.
      - The upload of the joined file raises: "error", the temporary file is left.
      - The save of the record raises: "error" as well, but the final object is already written
        and the temporary file already removed; the record stays as it was.
      - Otherwise the final object holds the joined chunks, the record is saved as processing
        and the temporary file is removed. Chunk objects are never deleted and neither the size
        nor the MD5 is checked. */
  function CompleteOn(s: GcsState, mediaId: string, total: int, md5Hash: Option<string>, userId: string,
                      dumps: Meta -> Bytes, readFails: bool, uploadFails: bool, saveFails: bool)
    : (r: (GcsState, Result<CompletionReply, StorageError>))
    ensures var meta := LoadRecord(s.bucket, MetadataBlobPath(userId, mediaId), readFails);
      (meta.chunks.None? || |meta.chunks.value| != total) ==>
        && r.0 == s
        && r.1 == Success(CompletionReply(mediaId, "error", 0.0, Some(ChunkCountMismatch(total, |meta.chunks.GetOr(map[])|))))
    ensures r.0.bucket != s.bucket ==>
      && !uploadFails
      && (r.1 == Success(CompletionReply(mediaId, "processing", 0.0, None))
          || (saveFails && r.1 == Success(CompletionReply(mediaId, "error", 0.0, Some(JoinFailed)))))
    ensures var meta := LoadRecord(s.bucket, MetadataBlobPath(userId, mediaId), readFails);
      (&& meta.chunks.Some? && total == |meta.chunks.value|
       && (forall i :: 0 <= i < total ==> i in meta.chunks.value && meta.chunks.value[i].path in Contents(s.bucket, dumps))
       && !uploadFails && saveFails) ==>
        r == (s.(bucket := s.bucket[FinalBlobPath(meta, userId, mediaId) := Data(ChunkBytes(meta.chunks.value, Contents(s.bucket, dumps), total))]),
              Success(CompletionReply(mediaId, "error", 0.0, Some(JoinFailed))))
    ensures r.0.tempFiles == s.tempFiles || (|r.0.tempFiles| == |s.tempFiles| + 1 && r.0.tempFiles[..|s.tempFiles|] == s.tempFiles)
    ensures r.1.Success? ==> r.1.value.progress == 0.0 && r.1.value.mediaId == mediaId
    ensures r.1 == Success(CompletionReply(mediaId, "processing", 0.0, None)) ==> r.0.tempFiles == s.tempFiles
    ensures s.bucket.Keys <= r.0.bucket.Keys
    ensures var meta := LoadRecord(s.bucket, MetadataBlobPath(userId, mediaId), readFails);
      r.1 == Success(CompletionReply(mediaId, "processing", 0.0, None)) ==>
        && !saveFails && meta.chunks.Some? && total == |meta.chunks.value|
        && (forall i :: 0 <= i < total ==> i in meta.chunks.value && meta.chunks.value[i].path in Contents(s.bucket, dumps))
        && r.0.bucket == s.bucket[FinalBlobPath(meta, userId, mediaId) := Data(ChunkBytes(meta.chunks.value, Contents(s.bucket, dumps), total))]
                                 [MetadataBlobPath(userId, mediaId) := Json(Finalized(meta, FinalBlobPath(meta, userId, mediaId), md5Hash))]
  {
    var metaPath := MetadataBlobPath(userId, mediaId);
    var meta := LoadRecord(s.bucket, metaPath, readFails);
    if meta.chunks.None? || |meta.chunks.value| != total then
      (s, Success(CompletionReply(mediaId, "error", 0.0, Some(ChunkCountMismatch(total, |meta.chunks.GetOr(map[])|)))))
    else
      var finalPath := FinalBlobPath(meta, userId, mediaId);
      match Assemble(meta.chunks.value, Contents(s.bucket, dumps), total)
      case MissingChunk(i, partial) =>
        (s.(tempFiles := s.tempFiles + [partial]), Success(CompletionReply(mediaId, "error", 0.0, Some(ChunkNotFound(i)))))
      case MissingFile(p, partial) =>
        (s.(tempFiles := s.tempFiles + [partial]), Failure(FileNotFound(p)))
      case Joined(bytes) =>
        AssembleJoinsInOrder(meta.chunks.value, Contents(s.bucket, dumps), total);
        if uploadFails then
          (s.(tempFiles := s.tempFiles + [bytes]), Success(CompletionReply(mediaId, "error", 0.0, Some(JoinFailed))))
        else if saveFails then
          (s.(bucket := s.bucket[finalPath := Data(bytes)]), Success(CompletionReply(mediaId, "error", 0.0, Some(JoinFailed))))
        else
          (s.(bucket := s.bucket[finalPath := Data(bytes)][metaPath := Json(Finalized(meta, finalPath, md5Hash))]),
           Success(CompletionReply(mediaId, "processing", 0.0, None)))
  }

  /** A finalize that answers "processing" has written the chunks 0..total-1, joined in index
      order, to the final object, and every chunk object is still there. */
  lemma FinalizeWritesJoinedChunks(s: GcsState, mediaId: string, total: int, md5Hash: Option<string>, userId: string,
                                   dumps: Meta -> Bytes, readFails: bool, uploadFails: bool, saveFails: bool)
    requires CompleteOn(s, mediaId, total, md5Hash, userId, dumps, readFails, uploadFails, saveFails).1
               == Success(CompletionReply(mediaId, "processing", 0.0, None))
    ensures var meta := LoadRecord(s.bucket, MetadataBlobPath(userId, mediaId), readFails);
      var b := CompleteOn(s, mediaId, total, md5Hash, userId, dumps, readFails, uploadFails, saveFails).0.bucket;
      && !readFails && !uploadFails && !saveFails && meta.chunks.Some? && total >= 0
      && FinalBlobPath(meta, userId, mediaId) in b
      && b[FinalBlobPath(meta, userId, mediaId)] == Data(ChunkBytes(meta.chunks.value, Contents(s.bucket, dumps), total))
      && forall i :: 0 <= i < total ==> i in meta.chunks.value && meta.chunks.value[i].path in b
  {
    var meta := LoadRecord(s.bucket, MetadataBlobPath(userId, mediaId), readFails);
    assert !readFails;
    var files := Contents(s.bucket, dumps);
    assert Assemble(meta.chunks.value, files, total).Joined?;
    AssembleJoinsInOrder(meta.chunks.value, files, total);
    assert FinalBlobPath(meta, userId, mediaId) != MetadataBlobPath(userId, mediaId) by {
      FinalIsNotMetadata(userId, mediaId, ExtensionFor(meta.fileType.GetOr("application/octet-stream")));
    }
  }

  /** The final object never coincides with the upload's own metadata object. */
  lemma FinalIsNotMetadata(userId: string, mediaId: string, ext: string)
    requires ext in {"wav", "mp3", "m4a", "aac", "ogg", "webm", "pdf", "jpg", "png", "bin"}
    ensures BlobPath(userId, mediaId, ext) != MetadataBlobPath(userId, mediaId)
  {
    var a, b := BlobPath(userId, mediaId, ext), MetadataBlobPath(userId, mediaId);
    var k := |userId + "/" + mediaId|;
    assert a[k] == '.';
    assert b[k] == '/';
  }

  /** `get_file_url`: FileNotFoundError without a record or without `blob_path`, otherwise the
      signed GET URL of `blob_path`. */
  function FileUrl(meta: Meta, mediaId: string, signUrl: (string, string) -> string): (r: Result<string, StorageError>)
    ensures r.Success? <==> meta != EmptyMeta && meta.blobPath.Some?
    ensures r.Success? ==> r.value == signUrl(meta.blobPath.value, "GET")
  {
    if meta == EmptyMeta || meta.blobPath.None? then Failure(FileNotFound(mediaId))
    else Success(signUrl(meta.blobPath.value, "GET"))
  }

  /** Because `generate_upload_url` already stores `blob_path`, a download URL is handed out
      before any byte of the file has been uploaded. */
  lemma FileUrlBeforeUpload(mediaId: string, fileType: string, fileSize: int, userId: string, signUrl: (string, string) -> string)
    ensures var r := FileUrl(GcsPendingMeta(mediaId, fileType, fileSize, userId), mediaId, signUrl);
      r == Success(signUrl(BlobPath(userId, mediaId, ExtensionFor(fileType)), "GET"))
  {
  }

  /** The objects `delete_file` removes when every delete succeeds: the final object named by
      `blob_path`, every chunk object the record lists, and the metadata object. */
  function DeleteTargets(meta: Meta, metaPath: string): set<string> {
    (if meta.blobPath.Some? then {meta.blobPath.value} else {})
    + ChunkPaths(meta.chunks.GetOr(map[]), meta.chunks.GetOr(map[]).Keys)
    + {metaPath}
  }

  /** The object names the entries with the given indices point to. */
  function ChunkPaths(chunks: map<int, ChunkEntry>, indices: set<int>): (r: set<string>)
    ensures forall k :: k in indices && k in chunks ==> chunks[k].path in r
  {
    set k | k in indices && k in chunks :: chunks[k].path
  }

  /** `delete_photo_scan_images` when every delete succeeds: every object under `{note}/` is gone. */
  function WithoutPrefix(bucket: map<string, Blob>, prefix: string): (r: map<string, Blob>)
    ensures forall p :: p in r <==> p in bucket && !StartsWith(p, prefix)
    ensures forall p :: p in r ==> r[p] == bucket[p]
  {
    map p | p in bucket && !StartsWith(p, prefix) :: bucket[p]
  }

  /** Photo-scan deletion is keyed by note id alone: when a note id equals a user id, deleting the
      note's images also removes that user's upload records, chunks and final files. */
  lemma PhotoDeleteReachesUploads(bucket: map<string, Blob>, userId: string, mediaId: string, i: int, ext: string)
    ensures var r := WithoutPrefix(bucket, userId + "/");
      && MetadataBlobPath(userId, mediaId) !in r
      && ChunkBlobPath(userId, mediaId, i) !in r
      && BlobPath(userId, mediaId, ext) !in r
  {
    var prefix := userId + "/";
    assert StartsWith(MetadataBlobPath(userId, mediaId), prefix) by {
      assert MetadataBlobPath(userId, mediaId)[..|prefix|] == prefix;
    }
    assert StartsWith(ChunkBlobPath(userId, mediaId, i), prefix) by {
      assert ChunkBlobPath(userId, mediaId, i)[..|prefix|] == prefix;
    }
    assert StartsWith(BlobPath(userId, mediaId, ext), prefix) by {
      assert BlobPath(userId, mediaId, ext)[..|prefix|] == prefix;
    }
  }

  /** The record `upload_file` saves. */
  function UploadedMeta(mediaId: string, contentType: string, userId: string): (m: Meta)
    ensures m.status == Some("processing") && m.progress == Some(0.0)
    ensures m.blobPath == Some(BlobPath(userId, mediaId, ExtensionFor(contentType)))
    ensures m.chunks.None? && m != EmptyMeta
  {
    EmptyMeta.(mediaId := Some(mediaId), userId := Some(userId), fileType := Some(contentType),
      status := Some("processing"), progress := Some(0.0), blobPath := Some(BlobPath(userId, mediaId, ExtensionFor(contentType))))
  }

  /** The record `upload_photo_scan_image` saves; note id, page id and storage type are not kept. */
  function PhotoMeta(noteId: string, pageId: string, userId: string): (m: Meta)
    ensures m.status == Some("completed") && m.blobPath == Some(PhotoBlobPath(noteId, pageId))
    ensures m.fileType == Some("image/jpeg")
  {
    EmptyMeta.(userId := Some(userId), fileType := Some("image/jpeg"), status := Some("completed"),
      blobPath := Some(PhotoBlobPath(noteId, pageId)))
  }

  /** Where an `upload_photo_scan_image` raises, if it does. */
  datatype PhotoFault = NoFault | ImageWriteFails | MetadataWriteFails

  /** Reply of `upload_photo_scan_image`. */
  datatype PhotoReply = PhotoReply(status: string, noteId: string, pageId: string, blobPath: Option<string>, publicUrl: Option<string>)

  /** `upload_photo_scan_image` as one atomic step: the image, then its metadata document; a
      failure at either step answers "error", and a metadata failure leaves the image stored. */
  function UploadPhotoOn(bucket: map<string, Blob>, bucketName: string, noteId: string, pageId: string, data: Bytes, userId: string, fault: PhotoFault)
    : (r: (map<string, Blob>, PhotoReply))
    ensures r.1.status == "success" <==> fault == NoFault
    ensures r.1.status == "success" ==>
      && r.1.publicUrl == Some("gs://" + bucketName + "/" + PhotoBlobPath(noteId, pageId))
      && r.1.blobPath == Some(PhotoBlobPath(noteId, pageId))
    ensures r.1.status != "success" ==> r.1.status == "error" && r.1.blobPath.None? && r.1.publicUrl.None?
    ensures fault == ImageWriteFails ==> r.0 == bucket
    ensures fault != ImageWriteFails ==> PhotoBlobPath(noteId, pageId) in r.0 && r.0[PhotoBlobPath(noteId, pageId)] == Data(data)
  {
    var path := PhotoBlobPath(noteId, pageId);
    var metaPath := PhotoMetadataPath(noteId, pageId);
    assert |path| != |metaPath|;
    match fault
    case ImageWriteFails => (bucket, PhotoReply("error", noteId, pageId, None, None))
    case MetadataWriteFails => (bucket[path := Data(data)], PhotoReply("error", noteId, pageId, None, None))
    case NoFault =>
      (bucket[path := Data(data)][metaPath := Json(PhotoMeta(noteId, pageId, userId))],
       PhotoReply("success", noteId, pageId, Some(path), Some("gs://" + bucketName + "/" + path)))
  }

  class GcsStorageProvider {
    const config: GcsConfig
    /** `json.dumps` of a metadata document, as the bytes a download of it returns. */
    const dumps: Meta -> Bytes
    /** `generate_signed_url` for an object name and an HTTP method. */
    const signUrl: (string, string) -> string
    var bucket: map<string, Blob>
    var tempFiles: seq<Bytes>

    function State(): GcsState
      reads this
    {
      GcsState(bucket, tempFiles)
    }

    constructor (config: GcsConfig, dumps: Meta -> Bytes, signUrl: (string, string) -> string)
      ensures this.config == config && this.dumps == dumps && this.signUrl == signUrl
      ensures State() == GcsState(map[], [])
    {
      this.config := config;
      this.dumps := dumps;
      this.signUrl := signUrl;
      bucket := map[];
      tempFiles := [];
    }

    /** `generate_upload_url`: the pending record is saved before the ticket is made; a save
        that raises changes nothing. */
    method GenerateUploadUrl(mediaId: string, fileType: string, fileSize: int, userId: string, saveFails: bool)
      returns (r: Result<UploadTicket, StorageError>)
      modifies this
      ensures r.Success? <==> !saveFails
      ensures saveFails ==> r.error == CloudCallFailed && bucket == old(bucket)
      ensures !saveFails ==> bucket == old(bucket)[MetadataBlobPath(userId, mediaId) := Json(GcsPendingMeta(mediaId, fileType, fileSize, userId))]
      ensures tempFiles == old(tempFiles)
      ensures r.Success? ==> r.value == GcsTicket(config, mediaId, fileSize, signUrl(BlobPath(userId, mediaId, ExtensionFor(fileType)), "PUT"))
    {
      var blobPath := BlobPath(userId, mediaId, ExtensionFor(fileType));
      if saveFails {
        return Failure(CloudCallFailed);
      }
      bucket := bucket[MetadataBlobPath(userId, mediaId) := Json(GcsPendingMeta(mediaId, fileType, fileSize, userId))];
      if fileSize > config.maxDirectUploadSize {
        r := Success(UploadTicket(mediaId, None, true, config.maxChunkSize));
      } else {
        r := Success(UploadTicket(mediaId, Some(signUrl(blobPath, "PUT")), false, config.maxChunkSize));
      }
    }

    method UploadChunk(mediaId: string, chunkIndex: int, totalChunks: int, data: Bytes, userId: string,
                       readFails: bool, writeFails: bool, saveFails: bool)
      returns (r: Result<ChunkReceipt, StorageError>)
      modifies this
      ensures (bucket, r) == UploadChunkOn(old(bucket), mediaId, chunkIndex, totalChunks, data, userId, readFails, writeFails, saveFails)
      ensures tempFiles == old(tempFiles)
    {
      var chunkPath := ChunkBlobPath(userId, mediaId, chunkIndex);
      if writeFails {
        return Failure(CloudCallFailed);
      }
      bucket := bucket[chunkPath := Data(data)];
      var metaPath := MetadataBlobPath(userId, mediaId);
      var meta := EmptyMeta;
      if !readFails && metaPath in bucket && bucket[metaPath].Json? {
        meta := bucket[metaPath].meta;
      }
      var chunks := if meta.chunks.Some? then meta.chunks.value else map[];
      chunks := chunks[chunkIndex := ChunkEntry(|data|, chunkPath)];
      meta := meta.(chunks := Some(chunks), totalChunks := Some(totalChunks));
      if totalChunks == 0 {
        return Failure(DivisionByZero);
      }
      meta := meta.(uploadProgress := Some(Fraction(|chunks|, totalChunks)));
      if saveFails {
        return Failure(CloudCallFailed);
      }
      bucket := bucket[metaPath := Json(meta)];
      r := Success(ChunkReceipt(mediaId, chunkIndex, |data|, "success"));
    }

    method CompleteUpload(mediaId: string, totalChunks: int, totalSize: int, md5Hash: Option<string>, userId: string,
                          readFails: bool, uploadFails: bool, saveFails: bool)
      returns (r: Result<CompletionReply, StorageError>)
      modifies this
      ensures (State(), r) == CompleteOn(old(State()), mediaId, totalChunks, md5Hash, userId, dumps, readFails, uploadFails, saveFails)
    {
      var metaPath := MetadataBlobPath(userId, mediaId);
      var meta := LoadRecord(bucket, metaPath, readFails);
      if meta.chunks.None? || |meta.chunks.value| != totalChunks {
        var actual := if meta.chunks.Some? then |meta.chunks.value| else 0;
        return Success(CompletionReply(mediaId, "error", 0.0, Some(ChunkCountMismatch(totalChunks, actual))));
      }
      var finalPath := FinalBlobPath(meta, userId, mediaId);
      // The temporary file is created with delete=False before the first chunk is read.
      var joined := JoinChunks(meta.chunks.value, Contents(bucket, dumps), totalChunks);
      match joined {
        case MissingChunk(i, partial) =>
          tempFiles := tempFiles + [partial];
          return Success(CompletionReply(mediaId, "error", 0.0, Some(ChunkNotFound(i))));
        case MissingFile(path, partial) =>
          tempFiles := tempFiles + [partial];
          return Failure(FileNotFound(path));
        case Joined(bytes) =>
          if uploadFails {
            tempFiles := tempFiles + [bytes];
            return Success(CompletionReply(mediaId, "error", 0.0, Some(JoinFailed)));
          }
          bucket := bucket[finalPath := Data(bytes)];
          // The temporary file is unlinked before the record is saved.
          if saveFails {
            return Success(CompletionReply(mediaId, "error", 0.0, Some(JoinFailed)));
          }
      }
      bucket := bucket[metaPath := Json(Finalized(meta, finalPath, md5Hash))];
      r := Success(CompletionReply(mediaId, "processing", 0.0, None));
    }

    method GetMediaStatus(mediaId: string, userId: string, readFails: bool) returns (r: StatusReply)
      ensures r == StatusOf(mediaId, LoadRecord(bucket, MetadataBlobPath(userId, mediaId), readFails))
    {
      var meta := LoadRecord(bucket, MetadataBlobPath(userId, mediaId), readFails);
      r := StatusOf(mediaId, meta);
    }

    method GetFileUrl(mediaId: string, userId: string, readFails: bool) returns (r: Result<string, StorageError>)
      ensures r == FileUrl(LoadRecord(bucket, MetadataBlobPath(userId, mediaId), readFails), mediaId, signUrl)
    {
      var meta := LoadRecord(bucket, MetadataBlobPath(userId, mediaId), readFails);
      r := FileUrl(meta, mediaId, signUrl);
    }

    /** `delete_file`. A delete of an object that does not exist raises NotFound, and so does
        one in `failing`; the first raise ends the call with False and keeps what was already
        deleted. The chunk objects are deleted in the record's key order, which the model
        leaves open. */
    method DeleteFile(mediaId: string, userId: string, readFails: bool, failing: set<string>) returns (ok: bool)
      modifies this
      ensures tempFiles == old(tempFiles)
      ensures bucket.Keys <= old(bucket).Keys && forall p :: p in bucket ==> bucket[p] == old(bucket)[p]
      ensures var meta := LoadRecord(old(bucket), MetadataBlobPath(userId, mediaId), readFails);
        && (meta == EmptyMeta ==> !ok && bucket == old(bucket))
        && ((meta.blobPath.Some? && (meta.blobPath.value !in old(bucket) || meta.blobPath.value in failing))
            ==> !ok && bucket == old(bucket))
        && (ok ==> bucket.Keys == old(bucket).Keys - DeleteTargets(meta, MetadataBlobPath(userId, mediaId)))
        && (ok ==> DeleteTargets(meta, MetadataBlobPath(userId, mediaId)) !! failing)
    {
      var metaPath := MetadataBlobPath(userId, mediaId);
      var meta := LoadRecord(bucket, metaPath, readFails);
      if meta == EmptyMeta {
        return false;
      }
      var main: set<string> := {};
      if meta.blobPath.Some? {
        var p := meta.blobPath.value;
        if p !in bucket || p in failing {
          return false;
        }
        bucket := map q | q in bucket && q != p :: bucket[q];
        main := {p};
      }
      var chunks := meta.chunks.GetOr(map[]);
      var chunksDeleted := DeleteChunkObjects(chunks, failing);
      if !chunksDeleted {
        return false;
      }
      if metaPath !in bucket || metaPath in failing {
        return false;
      }
      bucket := map q | q in bucket && q != metaPath :: bucket[q];
      ok := true;
    }

    /** The chunk loop of `delete_file`: the chunk objects are deleted one by one, in an order the
        model leaves open, until one delete raises. */
    method DeleteChunkObjects(chunks: map<int, ChunkEntry>, failing: set<string>) returns (ok: bool)
      modifies this
      ensures tempFiles == old(tempFiles)
      ensures bucket.Keys <= old(bucket).Keys && forall p :: p in bucket ==> bucket[p] == old(bucket)[p]
      ensures ok ==> bucket.Keys == old(bucket).Keys - ChunkPaths(chunks, chunks.Keys)
      ensures ok ==> ChunkPaths(chunks, chunks.Keys) !! failing
    {
      var remaining := chunks.Keys;
      while remaining != {}
        invariant remaining <= chunks.Keys
        invariant ChunkPaths(chunks, chunks.Keys - remaining) !! failing
        invariant bucket.Keys == old(bucket).Keys - ChunkPaths(chunks, chunks.Keys - remaining)
        invariant forall q :: q in bucket ==> bucket[q] == old(bucket)[q]
        invariant tempFiles == old(tempFiles)
        decreases remaining
      {
        var k := Pick(remaining);
        var p := chunks[k].path;
        if p !in bucket || p in failing {
          return false;
        }
        bucket := map q | q in bucket && q != p :: bucket[q];
        remaining := remaining - {k};
        assert ChunkPaths(chunks, chunks.Keys - remaining) == ChunkPaths(chunks, chunks.Keys - (remaining + {k})) + {p};
      }
      ok := true;
    }

    /** `upload_file`: the data object, then its record. A data write that raises changes
        nothing; a save that raises leaves the data object without a record. */
    method UploadFile(mediaId: string, data: Bytes, contentType: string, userId: string, writeFails: bool, saveFails: bool)
      returns (r: Result<string, StorageError>)
      modifies this
      ensures r.Success? <==> !writeFails && !saveFails
      ensures r.Success? ==> r.value == BlobPath(userId, mediaId, ExtensionFor(contentType))
      ensures r.Failure? ==> r.error == CloudCallFailed
      ensures var blobPath := BlobPath(userId, mediaId, ExtensionFor(contentType));
        && (writeFails ==> bucket == old(bucket))
        && (!writeFails && saveFails ==> bucket == old(bucket)[blobPath := Data(data)])
        && (r.Success? ==> bucket == old(bucket)[blobPath := Data(data)][MetadataBlobPath(userId, mediaId) := Json(UploadedMeta(mediaId, contentType, userId))])
      ensures tempFiles == old(tempFiles)
    {
      var blobPath := BlobPath(userId, mediaId, ExtensionFor(contentType));
      if writeFails {
        return Failure(CloudCallFailed);
      }
      bucket := bucket[blobPath := Data(data)];
      if saveFails {
        return Failure(CloudCallFailed);
      }
      bucket := bucket[MetadataBlobPath(userId, mediaId) := Json(UploadedMeta(mediaId, contentType, userId))];
      r := Success(blobPath);
    }

    method UploadPhotoScanImage(noteId: string, pageId: string, data: Bytes, userId: string, fault: PhotoFault) returns (r: PhotoReply)
      modifies this
      ensures (bucket, r) == UploadPhotoOn(old(bucket), config.bucketName, noteId, pageId, data, userId, fault)
      ensures tempFiles == old(tempFiles)
    {
      var path := PhotoBlobPath(noteId, pageId);
      if fault == ImageWriteFails {
        return PhotoReply("error", noteId, pageId, None, None);
      }
      bucket := bucket[path := Data(data)];
      if fault == MetadataWriteFails {
        return PhotoReply("error", noteId, pageId, None, None);
      }
      bucket := bucket[PhotoMetadataPath(noteId, pageId) := Json(PhotoMeta(noteId, pageId, userId))];
      r := PhotoReply("success", noteId, pageId, Some(path), Some("gs://" + config.bucketName + "/" + path));
    }

    method GetPhotoScanImageUrl(noteId: string, pageId: string) returns (url: string)
      ensures url == signUrl(PhotoBlobPath(noteId, pageId), "GET")
    {
      url := signUrl(PhotoBlobPath(noteId, pageId), "GET");
    }

    /** `delete_photo_scan_images`: every object under `{note}/` is listed and deleted; a delete
        in `failing` raises and ends the call with False, keeping what was already deleted. */
    method DeletePhotoScanImages(noteId: string, failing: set<string>) returns (ok: bool)
      modifies this
      ensures tempFiles == old(tempFiles)
      ensures ok <==> forall p :: p in old(bucket) && StartsWith(p, noteId + "/") ==> p !in failing
      ensures ok ==> bucket == WithoutPrefix(old(bucket), noteId + "/")
      ensures forall p :: p in old(bucket) && !StartsWith(p, noteId + "/") ==> p in bucket && bucket[p] == old(bucket)[p]
      ensures forall p :: p in bucket ==> p in old(bucket) && bucket[p] == old(bucket)[p]
    {
      var prefix := noteId + "/";
      var listed := set p | p in bucket && StartsWith(p, prefix);
      var remaining := listed;
      while remaining != {}
        invariant remaining <= listed
        invariant forall p :: p in listed - remaining ==> p !in failing
        invariant bucket.Keys == old(bucket).Keys - (listed - remaining)
        invariant forall q :: q in bucket ==> bucket[q] == old(bucket)[q]
        invariant tempFiles == old(tempFiles)
        decreases remaining
      {
        var p := Pick(remaining);
        if p in failing {
          return false;
        }
        bucket := map q | q in bucket && q != p :: bucket[q];
        remaining := remaining - {p};
      }
      ok := true;
    }
  }
}
