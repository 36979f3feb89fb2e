# talknoteapp backend core in Dafny

This project models the core of the talknoteapp backend. That backend stores recorded voice notes, imported web pages and files, and photographed handwriting as notebooks of pages. It transcribes audio, reads images aloud and answers questions with a language model. The model covers these parts:

- **Storage providers** (`storage_base`, `storage_local`, `storage_gcs`): chunked upload, finalization and deletion in the local and the Cloud Storage provider. The metadata record is a datatype with one optional field per JSON key the providers read or write, except the timestamps `created_at`, `updated_at` and the chunk entries' `uploaded_at`, which come from the clock and which nothing reads back; an absent key is `None`. The `result` key of the `get_media_status` reply is left out as well: only the progress simulation writes it, and that simulation is not modelled. Files and blobs are byte sequences held in a map.
- **Import jobs** (`import_schema`, `imports`, `history`, `url_importer`, `chunk_split`, `file_processor`):
  - the job registry and its ownership checks;
  - the URL and file pipelines, with their progress steps, pagination and title choice;
  - the history page;
  - the paragraph splitter and the subtitle cleaner;
  - the MIME and format detection of uploaded files.
- **Records** (`records`, `media_service`, `transcript_service`, `notebook`, `page`, `user`, `transcripts_api`):
  - the generic create/get/update/remove service over a table of rows;
  - the media, transcript, notebook, page and user services;
  - the transcripts endpoint's 404/400/403 chain and upsert.
- **Media worker** (`media_worker`): one processing run of a media asset, both as written and as evidently intended.
- **Text to speech** (`tts_base`, `tts_timeline`, `tts_providers`, `tts_gemini`, `tts_service`, `tts_api`):
  - the request validation and the sentence timeline;
  - the provider catalogues, the Gemini provider and the fallback service;
  - the endpoints' media types.
- **OCR and photo scan** (`ocr_vision`, `ocr_service`, `ocr_api`, `photo_scan`): the Vision response reading, the provider fallback, the endpoints, and the photo-scan page flow.
- **Pub/Sub** (`pubsub_client`, `pubsub_api`): message encoding, subscription bookkeeping and the push endpoint.
- **AI providers** (`ai_factory`, `anthropic_provider`, `yahoo_provider`, `ai_service`, `json_value`, `code_fence`):
  - the provider factory;
  - the Anthropic prompts and the parsing of its replies;
  - the Yahoo! dictionary formatting;
  - the service's fallbacks.

Python exceptions become `Result` values whose error names the exception class. Each HTTP endpoint returns either a value or a status code with its detail. Floating-point numbers are modelled as `real`.

These become parameters or oracles whose results the caller supplies:
- the clock and fresh ids;
- the SDK calls: Cloud Storage, Vision, Speech, the TTS engines, Anthropic, Yahoo! and Pub/Sub;
- the settings that the settings module does not declare.

Every asynchronous operation is one atomic step. Where the source mutates a store or a registry, the model is a class with `modifies` clauses. Every such method states its whole new state. Pure helpers are functions, and lemmas relate them.

## Model

| member | source | states |
|---|---|---|
| StorageBase.ExtensionFor | backend/app/providers/storage/local.py:375-396 | the extension always comes from the fixed table or is "bin"; each group of MIME types (matched after lower-casing) maps to its extension and nothing else does; "bin" exactly for types outside the table or octet-stream |
| StorageBase.RecordChunk | backend/app/providers/storage/local.py:162-179 | recording a chunk replaces that index's entry, stores the latest total and sets upload_progress to distinct indices over total; a total of 0 is the ZeroDivisionError; status, progress, file type and paths are untouched |
| StorageBase.RecordChunkCount | backend/app/providers/storage/local.py:168-178 | re-sending an index keeps the entry count; a new index adds exactly one |
| StorageBase.RecordChunkProgressMonotone | backend/app/providers/storage/local.py:177-179 | with a fixed positive total, upload_progress never decreases |
| StorageBase.Assemble | backend/app/providers/storage/local.py:223-237 | the join succeeds iff every index 0..n-1 has an entry whose file exists; otherwise it stops at the first missing entry or file |
| StorageBase.AssembleStopped | backend/app/providers/storage/local.py:225-233 | once the join has stopped early, looking at further indices changes nothing |
| StorageBase.JoinChunks | backend/app/providers/storage/local.py:224-237 | the concatenation loop computes exactly Assemble |
| StorageBase.AssembleJoinsInOrder | backend/app/providers/storage/local.py:224-237 | a successful join writes chunks 0..n-1 concatenated in ascending index order |
| StorageBase.AssembleDependsOnlyOnContents | backend/app/providers/storage/local.py:224-237 | two stores that agree on the entries and files of indices below n join to the same bytes |
| StorageBase.ChunkBytesLength | backend/app/providers/storage/local.py:224-237 | the joined file's size is the sum of the chunk sizes |
| StorageBase.ChunkFileNameInjective | backend/app/providers/storage/local.py:152 | distinct indices get distinct chunk_{:04d}.bin names, so no chunk overwrites another |
| StorageBase.StatusOf | backend/app/providers/storage/local.py:289-317 | a missing record answers "error" with progress 0.0 and the message "メディアが見つかりません"; otherwise the stored status ("unknown" if absent), progress (0.0 if absent) and error |
| LocalStorage.ChunkPathInjective | backend/app/providers/storage/local.py:45-49 | two chunks of one upload never share a file path |
| LocalStorage.LoadMeta | backend/app/providers/storage/local.py:63-70 | a missing metadata file loads as the empty object |
| LocalStorage.PendingMeta | backend/app/providers/storage/local.py:97-107 | the saved record is "pending" with progress 0.0, no chunks, and filename media_id.ext |
| LocalStorage.LocalTicket | backend/app/providers/storage/local.py:112-133 | chunked upload is enabled iff the size exceeds MAX_DIRECT_UPLOAD_SIZE; the URL is the test-upload endpoint for the media id |
| LocalStorage.UploadChunkOn | backend/app/providers/storage/local.py:135-189 | the chunk bytes are written to that index's file; a zero total raises and leaves the metadata unsaved; otherwise the reply is success with the received byte count and the saved record is the loaded one with the chunk entry (size, path) at its index, the total and the received count and progress updated |
| LocalStorage.Finalized | backend/app/providers/storage/local.py:240-247 | the finalized record is "processing" with progress 0.0 and file_path the final file; md5_hash is replaced only by a non-empty hash; every other field is kept |
| LocalStorage.CompleteOn | backend/app/providers/storage/local.py:191-257 | a chunk-count mismatch or a missing chunk answers "error" with the metadata unchanged; on the "processing" answer exactly two files change: the final file holds the chunks joined in index order, and the saved record is the loaded one with status "processing", progress 0.0, file_path the final file and md5_hash the given non-empty hash |
| LocalStorage.DeleteOn | backend/app/providers/storage/local.py:341-373 | a missing record answers False and deletes nothing; otherwise the record and the final file named by file_path are removed, no file under the upload's chunk directory remains, every other file is kept unchanged, and no file is created |
| LocalStorage.LocalStorageProvider.constructor | backend/app/providers/storage/local.py:24-37 | a new provider starts with an empty disk |
| LocalStorage.LocalStorageProvider.GenerateUploadUrl | backend/app/providers/storage/local.py:79-133 | saves PendingMeta under the metadata path, leaves data files alone and returns LocalTicket |
| LocalStorage.LocalStorageProvider.UploadChunk | backend/app/providers/storage/local.py:135-189 | the disk and the reply are those of UploadChunkOn |
| LocalStorage.LocalStorageProvider.CompleteUpload | backend/app/providers/storage/local.py:191-257 | the disk and the reply are those of CompleteOn; the simulated processing task is left out |
| LocalStorage.LocalStorageProvider.GetMediaStatus | backend/app/providers/storage/local.py:289-317 | answers StatusOf the loaded record |
| LocalStorage.LocalStorageProvider.GetFileUrl | backend/app/providers/storage/local.py:319-339 | FileNotFoundError unless the record exists and has file_path; otherwise the download endpoint URL for the media id |
| LocalStorage.LocalStorageProvider.DeleteFile | backend/app/providers/storage/local.py:341-373 | the disk and the reply are those of DeleteOn |
| LocalStorage.ChunkTable | backend/app/providers/storage/local.py:165-172 | after a sequence of chunk uploads the chunk table's keys are the old keys plus every index sent |
| LocalStorage.UploadAllBuildsTable | backend/app/providers/storage/local.py:135-189 | a sequence of successful uploads leaves the record's chunks equal to ChunkTable and the chunk files holding the uploaded bytes |
| LocalStorage.ChunkTableKeepsLastWrite | backend/app/providers/storage/local.py:168-172 | each index's entry names the file written by the last upload of that index |
| LocalStorage.FinalizeAfterUploads | backend/app/providers/storage/local.py:208-237 | uploading exactly the indices 0..total-1, in any order and with repeats, and then completing answers "processing" with the final file holding the last bytes sent per index in index order |
| LocalStorage.CompleteOnJoined | backend/app/providers/storage/local.py:221-248 | a completion whose chunks all join writes exactly the joined bytes to the final path |
| LocalStorage.UploadsCoverTable | backend/app/providers/storage/local.py:165-178 | the chunk table built by uploads has exactly one entry per distinct index sent |
| LocalStorage.ChunksJoinToLastBytes | backend/app/providers/storage/local.py:224-237 | chunk files holding the last bytes sent per index join to those bytes in index order |
| LocalStorage.ChunkBytesAreLastBytes | backend/app/providers/storage/local.py:224-237 | the concatenated chunk bytes equal the last bytes sent for each index |
| LocalStorage.FinalizeKeepsChunks | backend/app/providers/storage/local.py:239-257 | completing an upload, successfully or not, deletes no chunk file |
| LocalStorage.FinalizeIgnoresChecksum | backend/app/providers/storage/local.py:245-246 | the md5 hash is only stored, never checked: completing with or without it joins the same bytes |
| GcsStorage.ChunkBlobPathInjective | backend/app/providers/storage/gcs.py:52-56 | two chunks of one upload never share an object name |
| GcsStorage.ChunkIsNotMetadata | backend/app/providers/storage/gcs.py:52-62 | a chunk object (".bin") is never any upload's metadata object (".json") |
| GcsStorage.PhotoMetadataIsNotUploadMetadata | backend/app/providers/storage/gcs.py:558-566 | a photo-scan metadata object never coincides with an upload's metadata object |
| GcsStorage.LoadRecord | backend/app/providers/storage/gcs.py:77-92 | a missing object or any read failure loads as the empty object; a stored metadata document loads as itself |
| GcsStorage.GcsPendingMeta | backend/app/providers/storage/gcs.py:114-135 | the saved record is "pending" with progress 0.0, no chunks, and blob_path user/media.ext |
| GcsStorage.GcsTicket | backend/app/providers/storage/gcs.py:139-165 | above MAX_DIRECT_UPLOAD_SIZE chunked upload is enabled and no URL is given; otherwise the signed PUT URL is returned and chunking is off |
| GcsStorage.UploadChunkOn | backend/app/providers/storage/gcs.py:167-219 | a chunk write that raises changes nothing; otherwise the chunk object is written first, and a zero total (ZeroDivisionError) or a failed record save raises with only that object added; success exactly when neither write fails and the total is non-zero, and then the reply carries the byte count and the bucket is the old one plus the chunk object and the record object holding the loaded record with the chunk entry (size, object path) at its index |
| GcsStorage.UploadChunkAfterReadFault | backend/app/providers/storage/gcs.py:77-92 | when the metadata read fails, the saved record keeps only this chunk's bookkeeping: one entry, progress 1/total, and everything generate_upload_url stored is lost |
| GcsStorage.Finalized | backend/app/providers/storage/gcs.py:284-292 | the finalized record is "processing" with progress 0.0 and blob_path the final object; chunks and file type are kept; md5_hash is replaced only by a non-empty hash |
| GcsStorage.CompleteOn | backend/app/providers/storage/gcs.py:221-307 | a missing chunk table or a count mismatch answers "error" and changes nothing; the bucket changes only when the joined upload succeeds; with every index present and stored, a failed record save answers "error" (ファイル結合エラー) with exactly the final object added, the record unchanged and no temporary file left; a "processing" answer needs every index present, no failed save, and then the bucket gains exactly the final object holding the chunks joined in index order and the finalized record object; a temporary file is left behind only on an earlier error path |
| GcsStorage.FinalizeWritesJoinedChunks | backend/app/providers/storage/gcs.py:254-291 | a "processing" answer means the read, the upload and the record save succeeded, the final object holds chunks 0..total-1 joined in index order, and every chunk object is still stored |
| GcsStorage.FinalIsNotMetadata | backend/app/providers/storage/gcs.py:43-62 | the final object never coincides with the upload's own metadata object |
| GcsStorage.FileUrl | backend/app/providers/storage/gcs.py:369-398 | FileNotFoundError unless the record exists and has blob_path; otherwise the signed GET URL of blob_path |
| GcsStorage.FileUrlBeforeUpload | backend/app/providers/storage/gcs.py:114-135 | because generate_upload_url already stores blob_path, a download URL is handed out before any byte is uploaded |
| GcsStorage.WithoutPrefix | backend/app/providers/storage/gcs.py:595-610 | exactly the objects under the prefix are removed and the others keep their contents |
| GcsStorage.PhotoDeleteReachesUploads | backend/app/providers/storage/gcs.py:595-610 | photo deletion is keyed by note id alone: a note id equal to a user id also removes that user's upload records, chunks and final files |
| GcsStorage.UploadedMeta | backend/app/providers/storage/gcs.py:472-481 | the record upload_file saves is "processing" with progress 0.0, blob_path user/media.ext and no chunks |
| GcsStorage.PhotoMeta | backend/app/providers/storage/gcs.py:527-537 | the photo record is "completed", of type image/jpeg, with blob_path note/page.jpg |
| GcsStorage.UploadPhotoOn | backend/app/providers/storage/gcs.py:497-558 | the answer is "success" iff neither write fails, and then carries the gs:// URL and blob path; a failed image write changes nothing; a failed metadata write leaves the image stored |
| GcsStorage.GcsStorageProvider.constructor | backend/app/providers/storage/gcs.py:28-41 | a new provider starts with an empty bucket and no temporary files |
| GcsStorage.GcsStorageProvider.GenerateUploadUrl | backend/app/providers/storage/gcs.py:103-165 | a record save that raises changes nothing and answers the failure; otherwise saves GcsPendingMeta as the metadata object and returns GcsTicket with the signed PUT URL of the final object |
| GcsStorage.GcsStorageProvider.UploadChunk | backend/app/providers/storage/gcs.py:167-219 | the bucket and the reply are those of UploadChunkOn |
| GcsStorage.GcsStorageProvider.CompleteUpload | backend/app/providers/storage/gcs.py:221-307 | the bucket, the temporary files and the reply are those of CompleteOn |
| GcsStorage.GcsStorageProvider.GetMediaStatus | backend/app/providers/storage/gcs.py:339-367 | answers StatusOf the loaded record |
| GcsStorage.GcsStorageProvider.GetFileUrl | backend/app/providers/storage/gcs.py:369-398 | answers FileUrl of the loaded record |
| GcsStorage.GcsStorageProvider.DeleteFile | backend/app/providers/storage/gcs.py:400-438 | only removes objects; a missing record or a failed main-object delete answers False and changes nothing; True means exactly the final object, every listed chunk object and the record were removed |
| GcsStorage.GcsStorageProvider.DeleteChunkObjects | backend/app/providers/storage/gcs.py:422-427 | only removes objects; success means every chunk object the table lists was removed and none of their deletes failed |
| GcsStorage.GcsStorageProvider.UploadFile | backend/app/providers/storage/gcs.py:463-486 | a data write that raises changes nothing; a record save that raises leaves the data object without a record; otherwise stores the bytes at user/media.ext and the UploadedMeta record and returns that path |
| GcsStorage.GcsStorageProvider.UploadPhotoScanImage | backend/app/providers/storage/gcs.py:497-558 | the bucket and the reply are those of UploadPhotoOn |
| GcsStorage.GcsStorageProvider.GetPhotoScanImageUrl | backend/app/providers/storage/gcs.py:573-593 | the signed GET URL of note/page.jpg |
| GcsStorage.GcsStorageProvider.DeletePhotoScanImages | backend/app/providers/storage/gcs.py:595-610 | True iff no delete under note/ fails, and then the bucket is WithoutPrefix; objects outside the prefix are never touched and no object changes contents |
| ImportSchema.ParseType | backend/app/schemas/import_schema.py:14-17 | an import type is parsed iff its value is "url" or "file" |
| ImportSchema.ParseStatus | backend/app/schemas/import_schema.py:20-25 | an import status is parsed iff its value is one of the four enum values |
| ImportSchema.TypeValuesRoundTrip | backend/app/schemas/import_schema.py:14-17 | import types and their values correspond one to one, both ways round |
| ImportSchema.StatusValuesRoundTrip | backend/app/schemas/import_schema.py:20-25 | import statuses and their values correspond one to one, both ways round |
| ImportSchema.MakeUrlRequest | backend/app/schemas/import_schema.py:29-44 | the `HttpUrl` parse runs first and its failure is the answer; then a request is built iff the normalized URL starts with http:// or https://, else the validator's message; the normalized URL is kept and absent flags default to true |
| ImportSchema.MakeFileRequest | backend/app/schemas/import_schema.py:47-55 | a file request keeps the media id, and absent flags default to true |
| ImportSchema.DefaultsAreOn | backend/app/schemas/import_schema.py:36-37 | a request that leaves both flags out asks for an AI title and for splitting, for URLs and files alike |
| ImportSchema.OtherSchemesRefused | backend/app/schemas/import_schema.py:31-44 | a URL the field type refuses, or whose normalized text has any other prefix, is refused |
| ImportSchema.NormalizedUrlKept | backend/app/schemas/import_schema.py:31-44 | the validator tests the parsed text: "HTTP://x.com" normalized to "http://x.com/" passes and is kept in that form |
| ImportSchema.MakeStatusView | backend/app/schemas/import_schema.py:74-94 | a status view is built iff the progress lies in [0, 1], and it carries the id, status and progress |
| Imports.NewJob | backend/app/api/api_v1/endpoints/imports.py:70-84 | a registered job is pending at progress 0.0, owned by the caller, with no result, error or completion time |
| Imports.RisingInRange | backend/app/api/api_v1/endpoints/imports.py:379-445 | every progress mark a pipeline writes lies in [0, 1] |
| Imports.RisingIncreases | backend/app/api/api_v1/endpoints/imports.py:379-445 | the progress marks of a job strictly increase |
| Imports.View | backend/app/api/api_v1/endpoints/imports.py:236-250 | a job's status view exists iff its progress lies in [0, 1], and it shows the job's id and status |
| Imports.ChooseTitle | backend/app/api/api_v1/endpoints/imports.py:396-404 | the title is the fallback unless auto_title is on, the text is non-empty and the AI service answers for the first 500 characters |
| Imports.TitleSeesOnlyPrefix | backend/app/api/api_v1/endpoints/imports.py:400 | texts that agree on their first 500 characters get the same title |
| Imports.TitleFromBuiltService | backend/app/api/api_v1/endpoints/imports.py:396-404 | with the AI service built, `generate_title` never raises, so a non-empty text with auto_title on always takes the service's answer (a title or its error message) for the first 500 characters; the fallback needs auto_title off or no text |
| Imports.TitleWithoutService | backend/app/api/api_v1/endpoints/imports.py:396-404 | when the service cannot be built, the fallback title is kept |
| Imports.WholePage | backend/app/api/api_v1/endpoints/imports.py:433-439 | an unsplit import gets one page numbered 1 holding the whole text |
| Imports.NumberedTexts | backend/app/api/api_v1/endpoints/imports.py:425-431 | numbering the chunks gives pages 1, 2, ... whose texts are the chunks and whose lengths are their lengths |
| Imports.UrlPagesWithinLimit | backend/app/api/api_v1/endpoints/imports.py:419-431 | a split URL import has no page over 2002 characters (the page size plus the blank line the packing test leaves uncounted), and its pages are numbered 1, 2, ... |
| Imports.FilePagesCoverText | backend/app/api/api_v1/endpoints/imports.py:549-562 | a file import loses nothing: its pages joined give the text, and a split gives pages of 1 to 2000 characters |
| Imports.AtStage | backend/app/api/api_v1/endpoints/imports.py:380-384 | a stage update makes the job processing at the new progress and keeps its identity, owner, creation time and result |
| Imports.Finishing | backend/app/api/api_v1/endpoints/imports.py:442-458 | a completed job is at progress 1.0 with note id "import_" + id, the title and the pages |
| Imports.Failing | backend/app/api/api_v1/endpoints/imports.py:462-480 | a failed job keeps the progress where the failure happened and carries the error code |
| Imports.RisingAppend | backend/app/api/api_v1/endpoints/imports.py:379-445 | writing a larger progress in [0, 1] keeps the marks rising |
| Imports.PlaceholderName | backend/app/api/api_v1/endpoints/imports.py:508-509 | the stand-in file name is "imported_file_" + media id + ".txt" |
| Imports.FileFailed | backend/app/api/api_v1/endpoints/imports.py:585-604 | a FileProcessorError fails the job with FILE_IMPORT_ERROR and its message; any other error with INTERNAL_ERROR; the progress is kept |
| Imports.FirstMark | backend/app/api/api_v1/endpoints/imports.py:74 | a job starts with the single mark 0.0 |
| Imports.UrlStagesRise | backend/app/api/api_v1/endpoints/imports.py:379-445 | the marks 0.0, 0.1, 0.5, 0.7, 1.0 of the URL pipeline rise at every prefix |
| Imports.FileStagesRise | backend/app/api/api_v1/endpoints/imports.py:495-569 | the marks 0.0, 0.1, 0.3, 0.6, 0.8, 1.0 of the file pipeline rise at every prefix |
| Imports.UrlPages | backend/app/api/api_v1/endpoints/imports.py:415-439 | the URL pipeline's pages are the chunk split as written (separator not counted) when auto_split, IMPORT_SPLIT_ENABLED and more than 2000 characters all hold, one whole page otherwise |
| Imports.FilePages | backend/app/api/api_v1/endpoints/imports.py:545-562 | the file pipeline's pages are fixed 2000-character slices when auto_split and more than 2000 characters both hold, one whole page otherwise |
| Imports.UpdateKeepsValid | backend/app/api/api_v1/endpoints/imports.py:376-480 | rewriting one job keeps the registry valid when the new job agrees with its marks |
| Imports.ImportRegistry.constructor | backend/app/api/api_v1/endpoints/imports.py:39-40 | the registry starts empty |
| Imports.ImportRegistry.Register | backend/app/api/api_v1/endpoints/imports.py:85 | storing a job under its id; a new id goes last in insertion order, a known id keeps its place |
| Imports.ImportRegistry.Store | backend/app/api/api_v1/endpoints/imports.py:379-384 | one job is rewritten together with its marks; the registry stays valid |
| Imports.ImportRegistry.Advance | backend/app/api/api_v1/endpoints/imports.py:390-393 | a stage update stores the job processing at the last mark |
| Imports.ImportRegistry.Complete | backend/app/api/api_v1/endpoints/imports.py:442-458 | the completion stores Finishing at progress 1.0 |
| Imports.ImportRegistry.Fail | backend/app/api/api_v1/endpoints/imports.py:462-480 | a failure stores the failed job and keeps its marks |
| Imports.ImportRegistry.ImportFromUrl | backend/app/api/api_v1/endpoints/imports.py:44-117 | an unsupported URL is refused before anything is stored; any other is registered as a pending job of the caller, answered with an estimate of 30 seconds |
| Imports.ImportRegistry.ImportFromFile | backend/app/api/api_v1/endpoints/imports.py:120-207 | the media status lookup is swallowed, so a pending job of the caller is registered whatever it says, answered with an estimate of 60 seconds |
| Imports.ImportRegistry.ProcessUrlImport | backend/app/api/api_v1/endpoints/imports.py:367-480 | a failed extraction fails the job at 0.1 with URL_IMPORT_ERROR and the message; otherwise the job passes 0.5 and 0.7 and completes with the title and pages; no other job changes |
| Imports.ImportRegistry.FinishUrlImport | backend/app/api/api_v1/endpoints/imports.py:390-458 | after extraction the URL job passes 0.5 and 0.7 and completes with ChooseTitle and UrlPages |
| Imports.ImportRegistry.ProcessFileImport | backend/app/api/api_v1/endpoints/imports.py:483-604 | a failed extraction fails the job at 0.3 through FileFailed; otherwise the job passes 0.6 and 0.8 and completes, titled "Imported from" the placeholder name unless the AI answers |
| Imports.ImportRegistry.FinishFileImport | backend/app/api/api_v1/endpoints/imports.py:518-578 | after extraction the file job passes 0.6 and 0.8 and completes with ChooseTitle and FilePages |
| Imports.ImportRegistry.GetImportStatus | backend/app/api/api_v1/endpoints/imports.py:210-250 | an unknown id is 404 and another user's job is 403; otherwise the job's view |
| Imports.ImportRegistry.GetImportResult | backend/app/api/api_v1/endpoints/imports.py:253-294 | 404 for an unknown id, 403 for another user, 400 until the job has completed; otherwise its result |
| Imports.ImportRegistry.OwnerSeesStatus | backend/app/api/api_v1/endpoints/imports.py:210-250 | in a valid registry the owner always gets the status, with the job's progress and status |
| Imports.ImportRegistry.OwnerSeesResult | backend/app/api/api_v1/endpoints/imports.py:253-294 | a completed job's result is there for its owner, with the note named "import_" + id |
| ImportHistory.Entries | backend/app/api/api_v1/endpoints/imports.py:318-321 | the registry's jobs in insertion order: every listed job is stored under one of the ids, and every stored job is listed |
| ImportHistory.Matching | backend/app/api/api_v1/endpoints/imports.py:318-328 | a job is kept iff it belongs to the caller and passes the optional type and status filters |
| ImportHistory.Insert | backend/app/api/api_v1/endpoints/imports.py:331 | one step of the stable sort: the result is a permutation of the list plus the new job |
| ImportHistory.SortByNewest | backend/app/api/api_v1/endpoints/imports.py:331 | sorting by created_at with reverse=True gives a permutation of its input |
| ImportHistory.HeadIsNewest | backend/app/api/api_v1/endpoints/imports.py:331 | the head of a newest-first list is at least as new as every job in it |
| ImportHistory.InsertNewestFirst | backend/app/api/api_v1/endpoints/imports.py:331 | inserting into a newest-first list keeps it newest first |
| ImportHistory.SortedNewestFirst | backend/app/api/api_v1/endpoints/imports.py:331 | the sorted list is newest first |
| ImportHistory.CreatedAt | backend/app/api/api_v1/endpoints/imports.py:331 | the jobs created at one time, in list order; a job is in it iff it is in the list with that time |
| ImportHistory.InsertStable | backend/app/api/api_v1/endpoints/imports.py:331 | the inserted job goes behind every job created at the same time |
| ImportHistory.SortStable | backend/app/api/api_v1/endpoints/imports.py:331 | the sort is stable: jobs created at the same time keep their input order |
| ImportHistory.SortKeepsNewestFirst | backend/app/api/api_v1/endpoints/imports.py:331 | a list that is already newest first comes out unchanged |
| ImportHistory.PageStart | backend/app/api/api_v1/endpoints/imports.py:335-336 | the page starts at (page - 1) * page_size and ends at page * page_size |
| ImportHistory.OnItsPage | backend/app/api/api_v1/endpoints/imports.py:334-337 | each job at position k is on page k / page_size + 1, at offset k mod page_size |
| ImportHistory.HasNextMeansMore | backend/app/api/api_v1/endpoints/imports.py:360 | has_next holds exactly when the next page would not be empty |
| ImportHistory.Views | backend/app/api/api_v1/endpoints/imports.py:340-355 | building the items succeeds iff every job's progress is in [0, 1], and then item i is the view of job i |
| ImportHistory.Listed | backend/app/api/api_v1/endpoints/imports.py:318-331 | the listed jobs are newest first and all pass the filters |
| ImportHistory.GetImportHistory | backend/app/api/api_v1/endpoints/imports.py:297-362 | an invalid page or page size is refused; otherwise the total is the number listed, the items are the views of the page's window, at most page_size of them, and has_next iff page * page_size < total |
| ImportHistory.ListedAreTheMatches | backend/app/api/api_v1/endpoints/imports.py:318-331 | a stored job is listed iff it belongs to the caller and passes the filters |
| ImportHistory.HistoryAnswers | backend/app/api/api_v1/endpoints/imports.py:297-362 | with valid query bounds and a valid registry the owner always gets a page |
| ImportHistory.JobsInRange | backend/app/api/api_v1/endpoints/imports.py:318-331 | every listed job is stored under its own id and has a progress in [0, 1] |
| UrlImporter.LStripC0 | backend/app/services/url_importer.py:156 | the parser's first step drops exactly the leading run of C0 controls and spaces |
| UrlImporter.RemoveUnsafe | backend/app/services/url_importer.py:156 | the parser's second step deletes tabs, line feeds and carriage returns and keeps every other character in order |
| UrlImporter.NetlocEnd | backend/app/services/url_importer.py:156 | the authority runs up to the first '/', '?' or '#', or to the end |
| UrlImporter.SplitNetloc | backend/app/services/url_importer.py:156 | the authority holds no '/', '?' or '#'; it is refused when it holds only one of '[' and ']' |
| UrlImporter.UrlSplit | backend/app/services/url_importer.py:153-158 | urlparse's scheme and authority: the authority holds no delimiter and no unsafe character; of urlsplit's two refusals only the unbalanced brackets are modelled |
| UrlImporter.GetUrlType | backend/app/services/url_importer.py:161-170 | the URL type raises exactly when parsing does; otherwise it is youtube iff the lower-cased authority mentions one of the YouTube hosts |
| UrlImporter.SupportedIffSplits | backend/app/services/url_importer.py:514-520 | a URL is supported exactly when it parses, because both URL types are supported |
| UrlImporter.TwoHostsSuffice | backend/app/services/url_importer.py:167 | the third host adds nothing: a domain mentioning m.youtube.com mentions youtube.com |
| UrlImporter.NoColonIsInvalid | backend/app/services/url_importer.py:153-158 | without a colon there is no scheme, so the URL is never valid |
| UrlImporter.WebPrefixKept | backend/app/services/url_importer.py:156 | removing unsafe characters and leading blanks keeps an http:// or https:// prefix in place |
| UrlImporter.WebScheme | backend/app/services/url_importer.py:156 | a text starting with a web prefix has that scheme, followed by "//" |
| UrlImporter.WebUrlScheme | backend/app/services/url_importer.py:153-158 | a URL the request validator accepts parses with scheme http or https, and it is valid iff its authority is non-empty |
| UrlImporter.ExtractTextFromUrl | backend/app/services/url_importer.py:105-151 | an empty URL and an invalid URL are refused with their messages; a valid URL is handed to the YouTube or the web page extractor by its type |
| UrlImporter.ExtractedOnlyFromValid | backend/app/services/url_importer.py:105-151 | every successful extraction comes from a non-empty valid URL through one of the two extractors |
| UrlImporter.CollapseSpace | backend/app/services/url_importer.py:500 | every whitespace run becomes one space; no other character is added |
| UrlImporter.NewlineRunEnd | backend/app/services/url_importer.py:503 | a run of line feeds starting at i ends after at least one of them |
| UrlImporter.SquashKeeps | backend/app/services/url_importer.py:503 | the line-feed substitution has nothing left to do after whitespace runs were collapsed |
| UrlImporter.StripShape | backend/app/services/url_importer.py:506 | stripping keeps single spacing and adds no character |
| UrlImporter.CleanText | backend/app/services/url_importer.py:494-508 | the cleaned text has no line feed, no leading or trailing whitespace and no two adjacent whitespace characters |
| UrlImporter.VisibleAppend | backend/app/services/url_importer.py:494-508 | the non-whitespace characters of a concatenation are those of its parts |
| UrlImporter.VisibleBlank | backend/app/services/url_importer.py:494-508 | a text has no visible character iff it is all whitespace |
| UrlImporter.CollapseKeepsVisible | backend/app/services/url_importer.py:500 | collapsing whitespace runs leaves the visible characters alone |
| UrlImporter.StripKeepsVisible | backend/app/services/url_importer.py:506 | stripping removes whitespace only |
| UrlImporter.CleanKeepsVisible | backend/app/services/url_importer.py:494-508 | cleaning changes whitespace only: the visible characters come out unchanged and in order |
| UrlImporter.CleanEmptyIffBlank | backend/app/services/url_importer.py:494-508 | the cleaned text is empty exactly when the input is all whitespace |
| UrlImporter.CollapseKeeps | backend/app/services/url_importer.py:500 | a single-spaced text whose only whitespace is the plain space is its own collapse |
| UrlImporter.CleanIdempotent | backend/app/services/url_importer.py:494-508 | cleaning twice is cleaning once |
| UrlImporter.TagEnd | backend/app/services/url_importer.py:351 | a tag match ends at the first '>' and needs at least one character between the brackets |
| UrlImporter.RemoveTags | backend/app/services/url_importer.py:351 | tag removal never lengthens the text or adds characters, and keeps a leading character that does not open a tag |
| UrlImporter.TagsGone | backend/app/services/url_importer.py:351 | one pass removes every tag: nothing left matches |
| UrlImporter.NoTagUnchanged | backend/app/services/url_importer.py:351 | a text without tags comes out unchanged |
| UrlImporter.RemoveTagsIdempotent | backend/app/services/url_importer.py:351 | removing tags twice is removing them once |
| UrlImporter.EntityRunEnd | backend/app/services/url_importer.py:353 | the run of entity characters starting at i is maximal |
| UrlImporter.EntityEnd | backend/app/services/url_importer.py:353 | an entity match ends at a ';' after a non-empty run of entity characters |
| UrlImporter.RemoveEntities | backend/app/services/url_importer.py:353 | entity removal never lengthens the text or adds characters |
| UrlImporter.NoAmpersandUnchanged | backend/app/services/url_importer.py:353 | text without '&' comes out unchanged |
| UrlImporter.EntityCanSurvive | backend/app/services/url_importer.py:353 | unlike tag removal, one pass can leave an entity behind: "&ab&cd;;" becomes "&ab;" |
| UrlImporter.Unmark | backend/app/services/url_importer.py:351-353 | removing tags and then entities adds no character |
| UrlImporter.Pieces | backend/app/services/url_importer.py:341-357 | at most one piece per line, none of them empty |
| UrlImporter.PiecesStep | backend/app/services/url_importer.py:342-355 | each line contributes its own pieces after those of the earlier lines |
| UrlImporter.ReadLine | backend/app/services/url_importer.py:343-355 | the loop body yields exactly the line's pieces |
| UrlImporter.CollectSubtitles | backend/app/services/url_importer.py:337-357 | the line loop joins the pieces of every line with single spaces |
| UrlImporter.ParseVttSrtSubtitles | backend/app/services/url_importer.py:337-357 | the VTT/SRT text is the VTT/SRT pieces of the lines joined by spaces |
| UrlImporter.ParseGenericSubtitles | backend/app/services/url_importer.py:381-405 | the generic text is the generic pieces of the lines joined by spaces |
| UrlImporter.SubtitleTextIsOneLine | backend/app/services/url_importer.py:337-405 | the subtitle text holds no line feed |
| UrlImporter.GenericKeepsLess | backend/app/services/url_importer.py:381-405 | the generic parser's pieces are the VTT/SRT parser's pieces with some left out, in the same order |
| UrlImporter.TaggedCue | backend/app/services/url_importer.py:345-398 | a cue starting with a tag is kept, untagged, by the VTT/SRT parser and dropped by the generic one |
| UrlImporter.UnicodeDigitLinesSkipped | backend/app/services/url_importer.py:345-396 | `isdigit` lines in any script (Arabic-Indic digits, superscripts) are skipped by both parsers; `\d` in the timestamp test takes the Unicode decimal digits but not superscripts |
| UrlImporter.NumberPages | backend/app/services/url_importer.py:642-647 | page i holds chunk i, numbered i + 1, with its length |
| UrlImporter.Paginate | backend/app/services/url_importer.py:629-655 | the pages are the numbered chunks of the split as written (separator not counted) and the metadata agrees with them |
| UrlImporter.ExtractWithChunking | backend/app/services/url_importer.py:592-667 | a failed extraction fails either way; with the flag off the plain extraction, with it on the same extraction and its paging |
| UrlImporter.ShortTextOnePage | backend/app/services/url_importer.py:629-636 | a text of at most 2000 characters is one page, numbered 1, and not chunked |
| UrlImporter.PagesWithinLimit | backend/app/services/url_importer.py:638-647 | no page is longer than 2002 characters: the page size plus the one blank line the packing test leaves uncounted |
| UrlImporter.BlankTextNoPages | backend/app/services/url_importer.py:638-655 | a long whitespace-only text gets no page at all, so total_pages is 0 |
| ChunkSplit.SpaceRunEnd | backend/app/services/url_importer.py:551 | the whitespace run starting at i is maximal |
| ChunkSplit.LastNewline | backend/app/services/url_importer.py:551 | the last line feed of a stretch, or none when the stretch has none |
| ChunkSplit.MatchEnd | backend/app/services/url_importer.py:551-554 | a match of the blank-line or sentence-end pattern starting at i is non-empty; the greedy \s* runs to the last line feed of the following whitespace |
| ChunkSplit.Spans | backend/app/services/url_importer.py:551-554 | the pieces re.split keeps are consecutive spans of the text separated by matches |
| ChunkSplit.ReSplit | backend/app/services/url_importer.py:551-554 | re.split always returns at least one piece |
| ChunkSplit.Separators | backend/app/services/url_importer.py:551-554 | there is one dropped separator between each two pieces |
| ChunkSplit.ReSplitRejoins | backend/app/services/url_importer.py:551-554 | putting the separators back between the pieces gives the text again, and every separator is a match of the pattern |
| ChunkSplit.PiecesHoldNoMatch | backend/app/services/url_importer.py:551-554 | no piece re.split keeps holds a match of the pattern |
| ChunkSplit.BlankPieces | backend/app/services/url_importer.py:551-554 | every piece of an all-whitespace text is all whitespace |
| ChunkSplit.SentencePiecesUnmarked | backend/app/services/url_importer.py:554 | a sentence-end split leaves no 。, ！ or ？ in any piece |
| ChunkSplit.Slices | backend/app/services/url_importer.py:574-576 | the forced slices put back together give the paragraph, each holds 1 to max_chars characters |
| ChunkSplit.JoinSnoc | backend/app/services/url_importer.py:566-569 | appending a paragraph to the open chunk appends the separator and the paragraph to its text |
| ChunkSplit.FlushInvariant | backend/app/services/url_importer.py:556-586 | after the loop and the final flush, the groups read in order are exactly the units, and each group is within its bound |
| ChunkSplit.RunInvariant | backend/app/services/url_importer.py:559-583 | the loop invariant: the closed groups and the open one hold exactly the units seen so far, each within its bound |
| ChunkSplit.StepPacked | backend/app/services/url_importer.py:560-583 | one loop step keeps the invariant, adding the units of the stripped paragraph |
| ChunkSplit.ShortTextIsOneChunk | backend/app/services/url_importer.py:546-547 | a text within the limit comes back as the single chunk [text] |
| ChunkSplit.ChunksKeepParagraphs | backend/app/services/url_importer.py:550-589 | for a longer text, each chunk is a non-empty group of units joined by blank lines, and the groups read in order are exactly the stripped non-empty paragraphs, over-long ones cut into slices |
| ChunkSplit.ChunksWithinBound | backend/app/services/url_importer.py:564-583 | every chunk is at most max_chars + 2 long as written, and at most max_chars when the separator is counted |
| ChunkSplit.ChunksWithinLimit | backend/app/services/url_importer.py:564-583 | with the separator counted, no chunk exceeds max_chars |
| ChunkSplit.AsWrittenOverflow | backend/app/services/url_importer.py:564-568 | as written, "aa\n\nbbb" with max_chars 5 comes back as one chunk of 7 characters |
| ChunkSplit.BlankTextGivesNoChunks | backend/app/services/url_importer.py:559-589 | an all-whitespace text over the limit gives no chunk at all |
| ChunkSplit.NoBlankLineIsOnePiece | backend/app/services/url_importer.py:551-552 | a text with no blank line is one blank-line piece, so the sentence split is used |
| ChunkSplit.SentenceMarksDropped | backend/app/services/url_importer.py:552-554 | when the text has no blank line, the sentence marks it was cut at are gone from every chunk |
| ChunkSplit.JoinAllFlush | backend/app/services/url_importer.py:585-587 | closing the open chunk appends its text if it holds a paragraph |
| ChunkSplit.AppendSlices | backend/app/services/url_importer.py:574-577 | the slice loop appends exactly the slices of the paragraph, in order |
| ChunkSplit.PlaceKeepsOpen | backend/app/services/url_importer.py:560-583 | every paragraph held in the open chunk is non-empty |
| ChunkSplit.OpenText | backend/app/services/url_importer.py:566-569 | the open chunk's text is empty exactly when it holds no paragraph |
| ChunkSplit.MergeText | backend/app/services/url_importer.py:564-569 | a merge appends the paragraph to the open chunk's text, after "\n\n" when the chunk is non-empty |
| ChunkSplit.CutText | backend/app/services/url_importer.py:570-577 | a paragraph over the limit closes the open chunk and adds its slices as chunks of their own |
| ChunkSplit.SplitIntoChunks | backend/app/services/url_importer.py:536-589 | the loop over the paragraphs computes exactly Split |
| FileProcessor.SupportedFormats | backend/app/services/file_processor.py:44-62 | the table holds the four text keys, and the two PDF keys exactly when pypdf is available; PDF keys map to "pdf", the others to "txt" |
| FileProcessor.Head | backend/app/services/file_processor.py:128 | the first 1000 bytes, or all of them when there are fewer |
| FileProcessor.DetectMimeType | backend/app/services/file_processor.py:115-134 | a non-empty guess from the name wins; otherwise the %PDF signature gives application/pdf, a head that decodes as UTF-8 gives text/plain, and anything else application/octet-stream |
| FileProcessor.LStripChar | backend/app/services/file_processor.py:143 | lstrip drops exactly the leading run of the character |
| FileProcessor.Extension | backend/app/services/file_processor.py:143 | the lowered suffix without its dot, empty when there is no suffix; it holds no dot |
| FileProcessor.DropDot | backend/app/services/file_processor.py:143 | lowering keeps the suffix's single leading dot, and lstrip removes exactly it |
| FileProcessor.GetFileFormat | backend/app/services/file_processor.py:136-147 | the MIME type's entry wins, else the extension's, else none; there is a format iff one of them is in the table |
| FileProcessor.SupportedWithoutName | backend/app/services/file_processor.py:291-293 | without a file name only the MIME type decides support |
| FileProcessor.FormatsArePdfOrTxt | backend/app/services/file_processor.py:95-106 | a format found is "txt", or "pdf" with pypdf available, so the "Handler not implemented" and "pypdf is not available" errors are unreachable |
| FileProcessor.DetectionDecidesFormat | backend/app/services/file_processor.py:91-97 | a file whose name gives no guess is read as PDF when it carries the signature and pypdf is there, and as text when its head decodes as UTF-8 |
| FileProcessor.PageEntry | backend/app/services/file_processor.py:173-199 | page k's entry is numbered k + 1, has_text iff the page read and is not blank, and then gives the text length |
| FileProcessor.PageEntries | backend/app/services/file_processor.py:173-199 | one entry per page read, in page order |
| FileProcessor.KeptTexts | backend/app/services/file_processor.py:178-179 | the texts kept are not blank and in page order |
| FileProcessor.KeptMember | backend/app/services/file_processor.py:178-179 | a text is kept exactly when some page read as that text and it is not blank |
| FileProcessor.InfoFields | backend/app/services/file_processor.py:215-227 | the seven document-information fields are copied only when the document has any |
| FileProcessor.ExtractPdf | backend/app/services/file_processor.py:149-239 | the page loop computes exactly the specification of the PDF extraction |
| FileProcessor.JoinBlank | backend/app/services/file_processor.py:202-209 | a join of non-blank parts is blank exactly when there are no parts |
| FileProcessor.PagesRead | backend/app/services/file_processor.py:160-167 | all pages are read, up to 100 |
| FileProcessor.PdfShape | backend/app/services/file_processor.py:160-235 | a read PDF gives total_pages, extracted_pages, one entry per page read, and the non-blank page texts joined by blank lines |
| FileProcessor.PdfHasText | backend/app/services/file_processor.py:209 | has_text holds exactly when some page read has text |
| FileProcessor.KeptNonEmpty | backend/app/services/file_processor.py:173-202 | some text is kept from the first n pages exactly when one of them has text |
| FileProcessor.PdfFailures | backend/app/services/file_processor.py:151-152 | a missing pypdf and a reader failure are reported as errors, with the "Failed to process PDF file" prefix for the latter |
| FileProcessor.CountChar | backend/app/services/file_processor.py:271 | the count is 0 exactly when the character is absent |
| FileProcessor.LinesCount | backend/app/services/file_processor.py:271 | count('\n') + 1 is the number of lines split('\n') gives |
| FileProcessor.TxtExtraction | backend/app/services/file_processor.py:241-285 | the detected encoding (utf-8 at 1.0 by default) decodes the text; a UnicodeDecodeError falls back to UTF-8 with replacement at confidence 0.5; any other decode error fails with its message; the metadata counts characters and lines |
| FileProcessor.Extract | backend/app/services/file_processor.py:64-113 | empty data and an unsupported format are refused before any library is asked; a given empty MIME type counts as absent; "pdf" and "txt" go to their extractors |
| FileProcessor.ExtractTextFromFile | backend/app/services/file_processor.py:64-113 | the dispatch, running the PDF page loop, computes exactly Extract |
| CodeFence.BeforeFence | backend/app/providers/ai/anthropic/provider.py:186 | split("```")[0] is the longest prefix before the first fence: it holds no fence and is followed by one when the text has one |
| CodeFence.FenceText | backend/app/providers/ai/anthropic/provider.py:185-190 | a reply without a fence is parsed whole; otherwise the fenced text is stripped and holds no fence |
| CodeFence.StripNoFence | backend/app/providers/ai/anthropic/provider.py:186-188 | stripping a fence-free text leaves a fence-free text that strips to itself |
| CodeFence.StripIdempotent | backend/app/providers/ai/anthropic/provider.py:186-188 | strip applied twice is strip applied once |
| CodeFence.BeforeFenceOf | backend/app/providers/ai/anthropic/provider.py:186 | a backtick-free text followed by a fence is all split("```")[0] keeps |
| CodeFence.FenceFound | backend/app/providers/ai/anthropic/provider.py:185-188 | in a backtick-free text followed by a fence, the search finds that fence and the rest follows it |
| CodeFence.JsonBlockExtracted | backend/app/providers/ai/anthropic/provider.py:185-186 | a reply with a ```json block gives back that block's text, stripped, whatever follows it |
| CodeFence.PlainBlockExtracted | backend/app/providers/ai/anthropic/provider.py:187-188 | a reply with a plain fenced block and no ```json gives back that block's text, stripped |
| Records.FirstWhere | backend/app/services/base.py:45 | `.filter(...).first()` gives the earliest row meeting the condition, and nothing exactly when no row meets it |
| Records.IndexOf | backend/app/services/base.py:45 | the position of the first row whose field equals the value; none exactly when no row has it |
| Records.IndexOfAfterUpdate | backend/app/services/base.py:81-110 | an update that does not write the lookup field leaves every lookup by that field unchanged |
| Records.Where | backend/app/services/media.py:34-41 | `.filter(...).all()` keeps exactly the rows meeting the condition and invents none |
| Records.SortBy | backend/app/services/media.py:37 | `.order_by` returns a permutation of its input |
| Records.SortByIsSorted | backend/app/services/media.py:37 | the result of `.order_by` is ordered by the key |
| Records.Listing | backend/app/services/media.py:34-41 | filter, order, OFFSET, LIMIT: at most `limit` rows, each one a stored row meeting the filter |
| Records.ListingSorted | backend/app/services/media.py:34-41 | a listing is ordered by the key, and is empty once OFFSET passes the number of matching rows |
| Records.UpdateData | backend/app/services/base.py:97-101 | a dict update writes every given entry; a schema update writes only the fields the caller set explicitly, with their values |
| Records.UpdatedRowFields | backend/app/services/base.py:102-104 | an update keeps the row's columns, overwrites the columns present in the data and leaves the others |
| Records.UpdateWithUnknownKeys | backend/app/services/base.py:102-104 | data made only of keys that are not columns leaves the row unchanged |
| Records.UpdateIdempotent | backend/app/services/base.py:81-110 | applying the same update twice equals applying it once |
| Records.UnsetSchemaFieldKept | backend/app/services/base.py:101 | a schema field the caller left unset is never written |
| Records.Without | backend/app/services/base.py:123-124 | deleting the row at k keeps the rows before it and shifts the rows after it down by one |
| Records.CreatedRowIsFound | backend/app/services/base.py:63-79 | a row just appended is what a lookup by its key finds, when no earlier row had that key |
| Records.Table.constructor | backend/app/services/base.py:25-32 | a table over one model starts empty, keyed by its primary key |
| Records.Table.NewRow | backend/app/services/base.py:74-75 | `self.model(**data)` holds every column: the given value where given, the column default otherwise |
| Records.Table.Get | backend/app/services/base.py:34-45 | found exactly when some row has the id, and what is found is a stored row with that id |
| Records.Table.Find | backend/app/services/base.py:34-45 | the position of the row `get` returns; none exactly when `get` returns None |
| Records.Table.GetMulti | backend/app/services/base.py:47-61 | row j of the result is stored row skip+j; the result has `limit` rows whenever that many remain |
| Records.Table.Create | backend/app/services/base.py:63-79 | fails exactly when the data names an attribute the model lacks, changing nothing; otherwise appends the new row and advances the id |
| Records.Table.Update | backend/app/services/base.py:81-110 | the row at k becomes the old row with the update data written over it; no other row changes |
| Records.Table.Remove | backend/app/services/base.py:112-126 | fails exactly when `get` finds no row, changing nothing; otherwise returns the row `get` found and removes it alone |
| MediaService.GetByPage | backend/app/services/media.py:19-41 | at most `limit` stored assets of the page, newest first |
| MediaService.CountByPage | backend/app/services/media.py:43-58 | at most the number of rows, and zero exactly when no asset is on the page |
| MediaService.GetByType | backend/app/services/media.py:60-86 | at most `limit` stored assets of the page and the type, newest first |
| MediaService.CreateWithPage | backend/app/services/media.py:88-110 | fails exactly on an unknown attribute; otherwise appends the request's asset with its status forced to PENDING |
| MediaService.StatusUpdatedFields | backend/app/services/media.py:127-133 | the status is always written; processed_at is stamped exactly for COMPLETED and FAILED and kept otherwise; the error message changes only when a non-empty one is passed; no other field changes |
| MediaService.ProcessedAtNeverCleared | backend/app/services/media.py:129-130 | once stamped by a terminal status, processed_at survives any later status update |
| MediaService.StatusWrite | backend/app/services/media.py:127-133 | the fields `update_status` collects, written through the generic update, give the row `StatusUpdated` describes |
| MediaService.UpdateStatus | backend/app/services/media.py:112-138 | the asset at k becomes its `StatusUpdated` row; no other row changes |
| TranscriptService.CreateData | backend/app/services/transcript.py:95 | `obj_in.dict()` names every field of the create request, set or not |
| TranscriptService.UpdateFields | backend/app/services/transcript.py:117 | `dict(exclude_unset=True)` holds a field exactly when the caller set it, with its value |
| TranscriptService.GetByMediaAsset | backend/app/services/transcript.py:18-40 | at most `limit` stored transcripts of the asset, ordered by start time |
| TranscriptService.CountByMediaAsset | backend/app/services/transcript.py:42-57 | at most the number of rows, and zero exactly when the asset has no transcript |
| TranscriptService.GetByProvider | backend/app/services/transcript.py:59-80 | the first transcript of that asset and provider; none exactly when there is none |
| TranscriptService.CreateWithMediaAsset | backend/app/services/transcript.py:82-101 | appends a row holding the request's fields and advances the id |
| TranscriptService.UpdateTranscriptFields | backend/app/services/transcript.py:117-121 | text, confidence and metadata take the new value exactly when set and keep the old one otherwise; nothing else changes |
| TranscriptService.UpdateTranscript | backend/app/services/transcript.py:103-127 | the transcript at k becomes its updated row; no other row changes |
| MediaWorker.Extension | backend/app/workers/media_worker.py:135 | `os.path.splitext(path)[1]`: empty or starting with the dot, and never reaching back past a slash |
| MediaWorker.AudioFormat | backend/app/workers/media_worker.py:135-136 | always one of wav, mp3, flac, ogg: the lowered, dot-free extension when it is one of them, wav otherwise |
| MediaWorker.AudioFormatChars | backend/app/workers/media_worker.py:136 | the four known formats hold no dot or slash and are already lower-case |
| MediaWorker.ExtensionOfName | backend/app/workers/media_worker.py:135 | a file `stem.ext` in any directory has extension `.ext` |
| MediaWorker.AudioFormatOfName | backend/app/workers/media_worker.py:135-136 | a file `stem.ext` with a known format reports exactly that format |
| MediaWorker.TranscriptData | backend/app/workers/media_worker.py:147-157 | the transcript dict names the asset, the result's text and confidence and provider "google", plus the metadata keys of the wiring |
| MediaWorker.UnknownMediaFails | backend/app/workers/media_worker.py:56-59 | an id with no asset returns False and writes nothing |
| MediaWorker.TwoStatusWrites | backend/app/workers/media_worker.py:61-96 | with the media service bound and its calls awaitable, a found asset gets exactly two status writes: PROCESSING, then COMPLETED on success or FAILED otherwise |
| MediaWorker.StoreFaultEndsFailed | backend/app/workers/media_worker.py:98-113 | a store failure returns False, and the last status written is FAILED |
| MediaWorker.AsWrittenNeverProcesses | backend/app/workers/media_worker.py:56 | with `crud_media` unbound, every call returns False and changes nothing |
| MediaWorker.SynchronousStoreNeverProcesses | backend/app/workers/media_worker.py:56-113 | with `crud_media` bound but the synchronous CRUD methods awaited, every call still returns False and changes nothing |
| MediaWorker.WriteUnknownKey | backend/app/services/base.py:101-104 | a status written under a key the row lacks changes nothing |
| MediaWorker.RecoveredUnknownKey | backend/app/workers/media_worker.py:102-109 | the recovery write under a key no row has leaves the store as it was |
| MediaWorker.StatusWritesDropped | backend/app/workers/media_worker.py:62-66 | writes under `processing_status` name no media column, so the media rows never change, whatever happens |
| MediaWorker.CorrectedStatusLands | backend/app/workers/media_worker.py:88-96 | written under `status`, the asset ends COMPLETED exactly when the handler succeeded and FAILED otherwise; no other column or row changes |
| MediaWorker.NonAudioOutcome | backend/app/workers/media_worker.py:70-86 | image, PDF and URL assets succeed and any other non-audio type fails; neither touches the transcripts |
| MediaWorker.MissingAudioFileFails | backend/app/workers/media_worker.py:127-130 | an audio asset whose file is missing fails and stores no transcript |
| MediaWorker.LegacyAudioNeverTranscribes | backend/app/workers/media_worker.py:141-159 | reading `media.language` and passing `language` to the transcript model always fails, so no transcript is ever stored |
| MediaWorker.CorrectedAudioTranscribes | backend/app/workers/media_worker.py:125-162 | a successful transcription appends exactly one transcript of the asset with provider google and the result's text and confidence |
| MediaWorker.ReprocessingDuplicates | backend/app/workers/media_worker.py:159 | running an audio asset twice stores two transcripts of the same asset and provider |
| MediaWorker.MediaWorker.constructor | backend/app/workers/media_worker.py:32-42 | the worker holds the two tables and the wiring |
| MediaWorker.MediaWorker.ProcessMedia | backend/app/workers/media_worker.py:44-113 | the result and the store afterwards are those of `Process` |
| MediaWorker.MediaWorker.ProcessFound | backend/app/workers/media_worker.py:61-96 | once the asset is found and marked PROCESSING, the result and store are those of `Process` |
| MediaWorker.MediaWorker.Recover | backend/app/workers/media_worker.py:98-113 | the media rows become the recovered rows: FAILED written if the asset is found again |
| MediaWorker.MediaWorker.HandleMedia | backend/app/workers/media_worker.py:69-86 | the outcome and transcripts are those of the dispatch `Handle` |
| MediaWorker.MediaWorker.ProcessAudio | backend/app/workers/media_worker.py:115-166 | the outcome and transcripts are those of `AudioHandled` |
| MediaWorker.ProcessMediaTask | backend/app/workers/media_worker.py:169-182 | a fresh worker's run over the same store: the result and store are those of `Process` |
| NotebookService.GetByUser | backend/app/services/notebook.py:19-40 | at most `limit` rows, each a stored notebook of the user that is not deleted |
| NotebookService.CountIsWhere | backend/app/services/notebook.py:53-57 | the count of a filter equals the length of the filtered listing |
| NotebookService.CountAfterWrite | backend/app/services/notebook.py:228-233 | rewriting one row changes a filter's count by what the rewrite changes |
| NotebookService.WhereCountAfterWrite | backend/app/services/notebook.py:228-233 | the same for the length of the filtered listing |
| NotebookService.SoftDeleteHides | backend/app/services/notebook.py:215-233 | soft deletion keeps the record with its id and title, flags and stamps it, and lowers the owner's count by one |
| NotebookService.FirstBlocking | backend/app/services/notebook.py:113-117 | the duplicate-title query finds a row exactly when a live notebook of the user, other than the one being renamed, has the title |
| NotebookService.Numbered | backend/app/services/notebook.py:119 | `base(counter)` is longer than the base |
| NotebookService.NumberedInjective | backend/app/services/notebook.py:119 | different counters give different titles |
| NotebookService.FirstFreeUnique | backend/app/services/notebook.py:107-123 | the title the loop settles on is uniquely determined |
| NotebookService.BlockedTitles | backend/app/services/notebook.py:113-117 | at most one blocked title per row |
| NotebookService.TakenIsBlocked | backend/app/services/notebook.py:113-117 | every taken title is among the blocked titles |
| NotebookService.AttemptsBounded | backend/app/services/notebook.py:113-120 | every attempt is a taken title, so the counter never passes the number of rows and the loop ends |
| NotebookService.UniqueTitle | backend/app/services/notebook.py:107-123 | the result is free, and is the base when the base is free, else the first free `base(k)` |
| NotebookService.OthersNeverBlock | backend/app/services/notebook.py:113-117 | other users' notebooks and deleted ones never make a title taken |
| NotebookService.OwnTitleKept | backend/app/services/notebook.py:172-177 | re-saving a notebook under its own title finds the title free |
| NotebookService.CreateKeepsTitlesUnique | backend/app/services/notebook.py:105-125 | adding a live notebook under the first free title keeps live titles unique per user |
| NotebookService.ResolveOne | backend/app/services/notebook.py:129-142 | one name yields one tag id; a name with a tag among those stored before the loop reuses the first such tag and creates nothing; otherwise one tag of that name and user is appended with the next key; earlier rows are kept |
| NotebookService.ResolveTags | backend/app/services/notebook.py:128-142 | one tag id per name; earlier rows are kept; exactly one tag is appended per name (repeats counted) that has no tag among those stored before the loop, since the session does not flush |
| NotebookService.ResolveStep | backend/app/services/notebook.py:129-142 | one turn of the tag loop resolves the first name, then the rest |
| NotebookService.ResolveUnfold | backend/app/services/notebook.py:129-142 | resolving a list is resolving its head, then its tail |
| NotebookService.ResolvedNameExists | backend/app/services/notebook.py:131-139 | once a name is resolved it has a tag of the user, found or appended |
| NotebookService.ResolvedNamesExist | backend/app/services/notebook.py:128-142 | after the loop every name has a tag of the user |
| NotebookService.Missing | backend/app/services/notebook.py:131-139 | the count of names without a stored tag is zero exactly when every name has one |
| NotebookService.RepeatedNewNameAddsTwoTags | backend/app/services/notebook.py:128-142 | a name without a stored tag given twice in one list appends two tags of that name and links both, with distinct keys, so deduplicating the links drops neither |
| NotebookService.RepeatedStoredNameLinkedOnce | backend/app/services/notebook.py:128-145 | a name whose tag is stored, given twice, creates nothing and resolves to that tag twice, and the notebook is linked to it once |
| NotebookService.ResolveTwiceCreatesOnce | backend/app/services/notebook.py:128-142 | resolving the same names a second time, against the table the first call committed, creates no tag |
| NotebookService.CreateData | backend/app/services/notebook.py:105-125 | the insert names title, description, folder and the owner, and not the tags |
| NotebookService.NotebookUpdateData | backend/app/services/notebook.py:163-183 | a field is written exactly when the caller set it; the title is the unique one |
| NotebookService.Notebooks.constructor | backend/app/services/notebook.py:237 | the service holds the two tables and no links |
| NotebookService.Notebooks.AttachTags | backend/app/services/notebook.py:129-142 | the tag table and the ids collected are those of `ResolveTags` against the table as it stood before the loop |
| NotebookService.Notebooks.AttachNext | backend/app/services/notebook.py:129-142 | one turn keeps the loop invariant: what remains resolves to the final result |
| NotebookService.Notebooks.AttachTag | backend/app/services/notebook.py:131-142 | one name resolves as `ResolveOne` says, its query seeing only the stored rows |
| NotebookService.Notebooks.CreateWithOwner | backend/app/services/notebook.py:91-147 | the new notebook holds the request under its first free title; the tags are resolved, and the notebook is linked to each resolved tag once, in first-seen order |
| NotebookService.Notebooks.InsertNotebook | backend/app/services/notebook.py:105-125 | the inserted row holds the request under its first free title |
| NotebookService.Notebooks.LinkNewTags | backend/app/services/notebook.py:128-145 | None or an empty list links nothing and creates nothing; otherwise the resolved tags are linked in first-seen order, a tag named twice linked once, as the (notebook_id, tag_id) key of notebook_tags allows (backend/app/models/tag.py:13-18) |
| NotebookService.Notebooks.UpdateNotebook | backend/app/services/notebook.py:149-213 | only the fields the caller set are written, the title made unique excluding the notebook itself; tags are replaced exactly when given, each resolved tag linked once |
| NotebookService.Notebooks.UpdateRow | backend/app/services/notebook.py:163-187 | only the set fields are written to the notebook's row; a new title is the first free one among the owner's other notebooks; the key, the owner and the tag table are kept |
| NotebookService.Notebooks.ReplaceTags | backend/app/services/notebook.py:189-211 | the notebook's links become the ids of `ResolveTags` over the given names, against the tags stored before the loop, with repeats dropped; other notebooks' links are kept and no notebook's links ever repeat a tag |
| NotebookService.Notebooks.SoftDelete | backend/app/services/notebook.py:215-233 | the notebook at k is flagged deleted and stamped; no other row changes |
| PageService.GetByNotebook | backend/app/services/page.py:18-40 | at most `limit` stored pages of the notebook, ordered by page number |
| PageService.CountByNotebook | backend/app/services/page.py:42-57 | at most the number of rows, and zero exactly when the notebook has no page |
| PageService.MaxPageNumber | backend/app/services/page.py:73-75 | an upper bound of the notebook's page numbers, and None exactly when it has none |
| PageService.MaxPageNumberAttained | backend/app/services/page.py:73-75 | the maximum is the number of one of the notebook's pages |
| PageService.PageData | backend/app/services/page.py:79-84 | the insert names the notebook, title, number and canvas |
| PageService.AssignedNumberSpec | backend/app/services/page.py:78-82 | a requested number above 1 is kept; otherwise the number exceeds every number in the notebook, and is 1 in an empty notebook |
| PageService.AutoNumberFollowsLast | backend/app/services/page.py:73-80 | an auto-numbered page is one past a number some page of the notebook holds |
| PageService.RequestedNumberMayRepeat | backend/app/services/page.py:81-82 | a requested number above 1 may repeat one already in the notebook |
| PageService.CreateWithNotebook | backend/app/services/page.py:59-88 | appends the request's page under its assigned number |
| PageService.PageUpdateFields | backend/app/services/page.py:104 | a field is in the update exactly when the caller set it |
| PageService.UpdatePageFields | backend/app/services/page.py:104-108 | title, number and canvas take the new value exactly when set; nothing else changes |
| PageService.UpdatePage | backend/app/services/page.py:90-113 | the page at k becomes its updated row; no other row changes |
| UserService.CreateFields | backend/app/services/user.py:58-64 | the new user holds the uid, email, name and picture as given, and email_verified False unless given |
| UserService.UpdateFields | backend/app/services/user.py:87-89 | every key of the data but the uid |
| UserService.UpdateKeepsUid | backend/app/services/user.py:87-89 | the uid never changes, every other named column is written, the rest is kept |
| UserService.Users.constructor | backend/app/services/user.py:122 | the service over the user table |
| UserService.Users.GetByUid | backend/app/services/user.py:16-28 | a stored user with that uid, and None exactly when there is none |
| UserService.Users.Create | backend/app/services/user.py:44-68 | a missing uid raises KeyError; a clash on uid or email raises IntegrityError and changes nothing; otherwise the user is appended |
| UserService.Users.Update | backend/app/services/user.py:71-93 | None for an unknown uid; otherwise every named column but the uid is written, unless the new email clashes |
| UserService.Users.GetOrCreate | backend/app/services/user.py:96-118 | an existing user is updated; a new one is created; after a lost race the racer's row is returned; after an email clash nothing is |
| UserService.CreateClashesWithRacer | backend/app/services/user.py:112-118 | a row committed by another session with the same uid makes the insert clash |
| UserService.EmailClashReturnsNothing | backend/app/services/user.py:112-118 | an insert that clashes only on the email leaves the uid unknown, so `get_or_create` returns None |
| TranscriptsApi.Lookup | backend/app/services/base.py:34-45 | found exactly when some row has the id; what is found is the first such row |
| TranscriptsApi.Reach | backend/app/api/api_v1/endpoints/transcripts.py:85-99 | on success, the asset with that id (audio when required) and a notebook position; failures are 400, 404 or 500 |
| TranscriptsApi.MediaGuard | backend/app/api/api_v1/endpoints/transcripts.py:85-106 | passing means the caller owns the live notebook above the asset; failures are 400, 403, 404 or 500 |
| TranscriptsApi.LookupUnique | backend/app/services/base.py:45 | with unique ids, the lookup finds the one row holding the id |
| TranscriptsApi.GuardPassesIffAuthorized | backend/app/api/api_v1/endpoints/transcripts.py:85-106 | with unique primary keys, the guard passes exactly when the caller is authorized |
| TranscriptsApi.SoftDeleteAnswers | backend/app/api/api_v1/endpoints/transcripts.py:101-106 | ownership is checked before deletion: after a soft delete the owner gets 404 and everybody else still gets 403 |
| TranscriptsApi.ListTranscripts | backend/app/api/api_v1/endpoints/transcripts.py:27-71 | on success the caller is authorized; at most `limit` (at most 100) transcripts of the asset, and a total no larger than the table |
| TranscriptsApi.TranscriptGuard | backend/app/api/api_v1/endpoints/transcripts.py:137-158 | an unknown transcript is 404; passing means the transcript exists and the caller is authorized for its asset |
| TranscriptsApi.GetTranscript | backend/app/api/api_v1/endpoints/transcripts.py:126-160 | the stored transcript with that id, returned exactly when the guard passes |
| TranscriptsApi.Upserted | backend/app/api/api_v1/endpoints/transcripts.py:108-123 | the first transcript of the (asset, provider) pair is rewritten in place and nothing else changes; otherwise one is appended |
| TranscriptsApi.Rewritten | backend/app/api/api_v1/endpoints/transcripts.py:114-120 | the rewritten transcript keeps its asset and provider and holds the request's text, confidence and metadata |
| TranscriptsApi.RequestWritten | backend/app/api/api_v1/endpoints/transcripts.py:114-120 | the update built from the request writes all three of its fields |
| TranscriptsApi.Created | backend/app/api/api_v1/endpoints/transcripts.py:123 | a created transcript is of the pair and holds the request |
| TranscriptsApi.RewriteTwice | backend/app/api/api_v1/endpoints/transcripts.py:114-120 | rewriting twice is rewriting once |
| TranscriptsApi.RewriteHeld | backend/app/api/api_v1/endpoints/transcripts.py:114-120 | rewriting a transcript that already holds the request changes nothing |
| TranscriptsApi.UpsertStoresRequest | backend/app/api/api_v1/endpoints/transcripts.py:108-123 | when every row holds all columns, so does the table after the upsert, and the row it returns is stored and holds the request |
| TranscriptsApi.UpsertKeepsOnePerProvider | backend/app/api/api_v1/endpoints/transcripts.py:108-123 | when each pair had at most one transcript, it still has at most one |
| TranscriptsApi.UpdateAlreadyHeld | backend/app/services/transcript.py:117-121 | a row already holding what an update writes is left as it is |
| TranscriptsApi.UpsertIdempotent | backend/app/api/api_v1/endpoints/transcripts.py:108-123 | repeating the same request leaves the table and the next id as the first call left them |
| TranscriptsApi.FirstMatchAt | backend/app/services/transcript.py:59-80 | a row of the pair with none before it is the one `get_by_provider` finds |
| TranscriptsApi.CreateTranscript | backend/app/api/api_v1/endpoints/transcripts.py:74-123 | a failing guard returns its status and changes nothing; otherwise the table becomes the upserted one and the upserted row is returned |
| TranscriptsApi.PatchTranscript | backend/app/api/api_v1/endpoints/transcripts.py:163-199 | a failing guard changes nothing; otherwise only the fields the caller set are written on that transcript |
| TranscriptsApi.DeleteTranscript | backend/app/api/api_v1/endpoints/transcripts.py:202-236 | a failing guard changes nothing; otherwise that transcript alone is removed and returned |
| TtsBase.Clamp | backend/app/providers/tts/google.py:194-196 | `max(lo, min(hi, x))` lies in [lo, hi], is x inside the range and the nearer bound outside it |
| TtsBase.NewSynthesisResult | backend/app/providers/tts/base.py:42-61 | the result holds the arguments as given, with no sentences and empty metadata when those are None |
| TtsBase.Call | backend/app/providers/tts/base.py:42-61 | a constructor call succeeds exactly when every required keyword is given and no unknown one is; otherwise it raises TypeError |
| TtsBase.ValidateText | backend/app/providers/tts/base.py:125-142 | valid exactly when the text is not blank and has at most 5000 characters |
| TtsBase.Pieces | backend/app/providers/tts/base.py:158 | splitting always gives at least one piece |
| TtsBase.PiecesUndelimited | backend/app/providers/tts/base.py:158 | no piece holds one of the six sentence delimiters |
| TtsBase.Clean | backend/app/providers/tts/base.py:161 | stripping and dropping blanks never adds a piece |
| TtsBase.NonSpaceAppend | backend/app/providers/tts/base.py:161 | the non-space characters of a concatenation are those of its parts |
| TtsBase.NonSpaceOfSpace | backend/app/providers/tts/base.py:161 | a blank string has no non-space character |
| TtsBase.NonSpaceStrip | backend/app/providers/tts/base.py:161 | `strip()` removes whitespace only |
| TtsBase.LStripNonSpace | backend/app/providers/tts/base.py:161 | the left strip removes whitespace only |
| TtsBase.RStripNonSpace | backend/app/providers/tts/base.py:161 | the right strip removes whitespace only |
| TtsBase.ConcatPieces | backend/app/providers/tts/base.py:158 | gluing the pieces back together gives the text without its delimiters |
| TtsBase.CleanKeepsText | backend/app/providers/tts/base.py:161 | cleaning the pieces loses whitespace and nothing else |
| TtsBase.StrippedPiece | backend/app/providers/tts/base.py:161 | a non-blank piece without delimiters strips to a sentence |
| TtsBase.CleanShape | backend/app/providers/tts/base.py:161 | every cleaned piece is a sentence: non-empty, stripped, without delimiters |
| TtsBase.SplitSentencesSpec | backend/app/providers/tts/base.py:144-163 | every sentence is non-empty, stripped and delimiter-free, and together they hold every non-space character of the text except the delimiters, in order |
| TtsBase.UndelimitedIsOneSentence | backend/app/providers/tts/base.py:144-163 | a text without delimiters is one sentence, itself stripped, unless it is blank |
| TtsBase.OneP | backend/app/providers/tts/base.py:158 | a text without delimiters is a single piece |
| TtsBase.Minutes | backend/app/providers/tts/base.py:180-181 | a zero rate raises ZeroDivisionError; a positive rate gives a non-negative duration |
| TtsBase.EstimateDuration | backend/app/providers/tts/base.py:165-183 | raises exactly for a zero rate; otherwise at least one second |
| TtsBase.EstimateMonotone | backend/app/providers/tts/base.py:165-183 | a longer text never gets a shorter estimate, and a faster positive rate never a longer one |
| TtsBase.NegativeRateFloors | backend/app/providers/tts/base.py:181-183 | a negative rate gives the one-second floor |
| TtsBase.ClampedEstimate | backend/app/providers/tts/google.py:292-301 | raises exactly for a zero rate; otherwise between one second and the provider's ceiling |
| TtsBase.ClampedEstimateExact | backend/app/providers/tts/google.py:292-301 | inside the clamp the estimate is the plain characters-per-minute rule |
| TtsTimeline.ShareAdd | backend/app/providers/tts/google.py:238-239 | shares of the duration add up like the character counts |
| TtsTimeline.Proportional | backend/app/providers/tts/google.py:221-250 | no sentences give no timestamps; a non-empty list of empty sentences divides by zero; otherwise one timestamp per sentence |
| TtsTimeline.ProportionalTimestamps | backend/app/providers/tts/google.py:221-250 | the loop returns what `Proportional` describes |
| TtsTimeline.NextShare | backend/app/providers/tts/google.py:238-248 | one turn of the loop moves `current_time` to the share of the next prefix |
| TtsTimeline.ProportionalTiles | backend/app/providers/tts/google.py:221-250 | the timestamps tile [0, d]: the first starts at 0, each starts where the last ended, the last ends at d, each span is the sentence's share of d |
| TtsTimeline.ShareWhole | backend/app/providers/tts/google.py:238 | all the characters get the whole duration, none get nothing |
| TtsTimeline.ShareNonNegative | backend/app/providers/tts/google.py:238 | a share of a non-negative duration is non-negative |
| TtsTimeline.TotalCharsPositive | backend/app/providers/tts/google.py:234 | non-empty sentences have a positive total |
| TtsTimeline.SplitSentencesNeverDivideByZero | backend/app/providers/tts/base.py:144-163 | the sentences of the splitter never make the proportional layout divide by zero |
| TtsTimeline.Marked | backend/app/providers/tts/gemini.py:186 | one text per sentence |
| TtsTimeline.SlotStep | backend/app/providers/tts/gemini.py:182-183 | consecutive slots are one share apart |
| TtsTimeline.SlotAll | backend/app/providers/tts/gemini.py:179-183 | n shares of d / n make d |
| TtsTimeline.EqualShares | backend/app/providers/tts/gemini.py:170-190 | one timestamp per Gemini sentence |
| TtsTimeline.GeminiTimestamps | backend/app/providers/tts/gemini.py:170-190 | the loop returns what `EqualShares` describes |
| TtsTimeline.EqualSharesTile | backend/app/providers/tts/gemini.py:170-190 | Gemini's timestamps tile [0, d] in equal parts |
| TtsTimeline.MarkedJoin | backend/app/providers/tts/gemini.py:186 | the marked texts glued together are the sentences joined with '。' |
| TtsTimeline.EqualSharesText | backend/app/providers/tts/gemini.py:174-186 | Gemini's timestamp texts read together as its sentences joined with '。' |
| TtsProviders.CatalogueShape | backend/app/providers/tts/minimax.py:30-57 | the listing order names exactly the keys of the voice dictionary, and the default voice is one of them |
| TtsProviders.ChooseVoice | backend/app/providers/tts/minimax.py:94-97 | a known voice id is kept; an unknown one becomes the provider's default, without an error |
| TtsProviders.ElevenLabsSendsMappedId | backend/app/providers/tts/elevenlabs.py:131-132 | ElevenLabs sends the voice's API id, which differs from the key the caller passed |
| TtsProviders.AvailableVoices | backend/app/providers/tts/minimax.py:311-322 | the loop over the dictionary returns the voices whose language matches, in dictionary order |
| TtsProviders.VoicesForStep | backend/app/providers/tts/minimax.py:318-320 | one more key appends its voice exactly when the language matches |
| TtsProviders.JapaneseVoice | backend/app/providers/tts/minimax.py:30-57 | every voice of every dictionary is ja-JP |
| TtsProviders.VoicesForMembers | backend/app/providers/tts/minimax.py:311-322 | a voice is listed exactly when it is in the dictionary and its language matches |
| TtsProviders.OnlyJapaneseVoices | backend/app/providers/tts/minimax.py:311-322 | asking for ja-JP lists every voice; asking for any other language lists none |
| TtsProviders.Validate | backend/app/providers/tts/minimax.py:334-349 | the base check always applies; MiniMax adds at most 3000 characters and none of `< > { }`; ElevenLabs at most 2500 characters |
| TtsProviders.Estimate | backend/app/providers/tts/minimax.py:351-361 | raises exactly for a zero rate; otherwise between one second and the provider's ceiling |
| TtsProviders.SynthesizeOutcome | backend/app/providers/tts/minimax.py:58-139 | a missing key or an invalid text raises ValueError; later failures are RuntimeErrors carrying the provider's prefix; success exactly when the API answered and the rate is not zero |
| TtsProviders.SynthesizeResult | backend/app/providers/tts/minimax.py:114-134 | a result carries the API's audio, the request's text, format and rate, the chosen voice, a bounded estimate, the proportional timestamps over it, and metadata naming provider and voice |
| TtsProviders.SynthesizeBuilds | backend/app/providers/tts/minimax.py:114-134 | a successful synthesis is the result built from the audio, the estimate and the chosen voice |
| TtsProviders.MetadataNames | backend/app/providers/tts/minimax.py:126-134 | the metadata names the provider and the chosen voice |
| TtsProviders.SynthesizeTimeline | backend/app/providers/tts/minimax.py:114-116 | a successful result's timestamps tile [0, duration], one per sentence |
| TtsProviders.UnknownVoiceFallsBack | backend/app/providers/tts/minimax.py:94-99 | an unknown voice id is synthesized with the default voice |
| TtsProviders.TruncateBounds | backend/app/providers/tts/minimax.py:164 | `int(x)` truncates toward zero: it is within one of x, on the side of zero |
| TtsProviders.MiniMaxRequestBody | backend/app/providers/tts/minimax.py:156-170 | speed and volume in [0.5, 2], pitch in [-12, 12], the format lowered, model speech-01 and bitrate 128000 |
| TtsProviders.MiniMaxPassesInRange | backend/app/providers/tts/minimax.py:162-164 | values already in range are sent unchanged |
| TtsProviders.ElevenLabsVoiceSettings | backend/app/providers/tts/elevenlabs.py:186-204 | stability 0.7 faster, 0.3 slower, 0.5 at speed 1; similarity 0.8 at volume 0, else the volume mapped from [-20, 20] dB to [0, 1] |
| TtsProviders.SimilarityFollowsVolume | backend/app/providers/tts/elevenlabs.py:202-204 | the similarity boost rises with the volume and is linear across [-20, 20] dB |
| TtsProviders.ElevenLabsOutput | backend/app/providers/tts/elevenlabs.py:211-219 | mp3 (any case) gives mp3_22050_32 and audio/mpeg; anything else pcm_22050 |
| TtsProviders.GoogleEncoding | backend/app/providers/tts/google.py:183-189 | MP3 exactly for mp3, LINEAR16 otherwise |
| TtsProviders.GoogleAudioConfig | backend/app/providers/tts/google.py:183-198 | rate in [0.25, 4], pitch in [-20, 20], gain in [-96, 16]; in-range values unchanged; encoding and sample rate from the request |
| TtsGemini.GeminiAudioConfig | backend/app/providers/tts/gemini.py:57-63 | MP3 exactly for mp3; rate, pitch and gain clamped to Google's ranges; the sample rate passed through |
| TtsGemini.SameConfigAsGoogle | backend/app/providers/tts/gemini.py:57-63 | Gemini's audio config is the one Google builds |
| TtsGemini.Prepared | backend/app/providers/tts/gemini.py:46-93 | no key raises RuntimeError; a failed call raises as it did; an empty answer raises; otherwise the audio and the equal-share timestamps over the processing time |
| TtsGemini.AsWrittenNeverSynthesizes | backend/app/providers/tts/gemini.py:97-113 | no call ever returns a result; once audio arrives the constructor raises TypeError on the keywords |
| TtsGemini.CorrectedSynthesizes | backend/app/providers/tts/gemini.py:97-113 | with accepted keywords, non-empty audio and a non-zero rate give a result with that audio, the text, two bytes per sample and the equal-share timestamps |
| TtsGemini.CorrectedFailsAlike | backend/app/providers/tts/gemini.py:46-93 | the failures before the construction are the same corrected or not |
| TtsGemini.Filter | backend/app/providers/tts/gemini.py:157 | exactly the voices of that language |
| TtsGemini.AsWrittenListsNoVoices | backend/app/providers/tts/gemini.py:125-153 | listing voices always raises TypeError on the `id` keyword |
| TtsGemini.CorrectedListsVoices | backend/app/providers/tts/gemini.py:117-159 | with accepted keywords: the four voices for no language, "" or ja-JP, and none for any other |
| TtsGemini.FilterAll | backend/app/providers/tts/gemini.py:157 | when every voice matches, all are kept |
| TtsGemini.FilterNone | backend/app/providers/tts/gemini.py:157 | when none matches, none is kept |
| TtsService.Keep | backend/app/services/tts_service.py:188-193 | the filtered list is no longer than the input and holds exactly the names that are allowed |
| TtsService.RegisteredSpec | backend/app/services/tts_service.py:54-69 | the registered providers are the four candidates minus those whose construction raised, each once; none exactly when all four raised |
| TtsService.CandidatesDistinct | backend/app/services/tts_service.py:56-61 | the four candidate names are distinct |
| TtsService.RegisteredEmpty | backend/app/services/tts_service.py:71-73 | nothing is registered exactly when all four constructions raised |
| TtsService.KeepDistinct | backend/app/services/tts_service.py:188-189 | filtering a list of distinct names keeps them distinct |
| TtsService.PrimarySpec | backend/app/services/tts_service.py:75-84 | when anything is registered the primary is registered; it stays the configured one exactly when that one is registered |
| TtsService.ProviderOrderSpec | backend/app/services/tts_service.py:183-195 | only registered names are tried; a name is tried exactly when it is configured or the honoured preference; an honoured preference comes first and only once |
| TtsService.UnpreferredOrder | backend/app/services/tts_service.py:190-193 | without an honoured preference, and with everything registered, the order is the primary and then the fallbacks |
| TtsService.KeepNothing | backend/app/services/tts_service.py:193 | filtering against nothing registered leaves nothing |
| TtsService.KeepAll | backend/app/services/tts_service.py:193 | filtering names that are all allowed keeps the list as it is |
| TtsService.AdjustSpec | backend/app/services/tts_service.py:197-252 | text, language, pitch, volume and format kept; a given voice and sample rate kept, missing ones take the provider default; the rate clamped to [0.5, 2] for minimax, [0.25, 4] for elevenlabs and google, untouched otherwise |
| TtsService.DefaultVoicesReachProviders | backend/app/services/tts_service.py:225-230 | the minimax and google default voices exist in their providers; elevenlabs' "Bella" does not, and becomes that provider's own default |
| TtsService.FirstIndex | backend/app/services/tts_service.py:167 | `list.index`: the first position holding the name |
| TtsService.StampedSpec | backend/app/services/tts_service.py:162-169 | the statistics add the time, the successful provider and the order up to its first position; the rest of the result is the provider's |
| TtsService.RefusedBeforeTrying | backend/app/services/tts_service.py:121-125 | a disabled service raises RuntimeError and a blank text ValueError, whatever the providers would do |
| TtsService.AttemptsFail | backend/app/services/tts_service.py:131-181 | from any position, the loop raises exactly when every remaining attempt fails, and then reports the last attempt's error |
| TtsService.AttemptsSucceed | backend/app/services/tts_service.py:131-176 | a success is the first successful attempt, with the statistics added |
| TtsService.FallbackSpec | backend/app/services/tts_service.py:86-181 | succeeds exactly when some provider in the order succeeds, returning the first success stamped; otherwise raises with the last attempt's error |
| TtsService.NothingRegistered | backend/app/services/tts_service.py:178-181 | with nothing registered the call raises "All TTS providers failed. Last error: None" |
| TtsService.VoicesByProviderStep | backend/app/services/tts_service.py:267-274 | one more name adds or overwrites its entry |
| TtsService.VoicesByProviderSpec | backend/app/services/tts_service.py:254-276 | one entry per checked name; gemini's entry is empty; the others hold their catalogue voices for the language |
| TtsService.Service.constructor | backend/app/services/tts_service.py:39-84 | the registered providers, the primary after the fallback rule, the configured fallbacks, disabled when nothing registered |
| TtsService.Service.SynthesizeText | backend/app/services/tts_service.py:86-181 | the outcome is the `Synthesis` specification, whose properties are the lemmas above |
| TtsService.Service.GetAvailableVoices | backend/app/services/tts_service.py:254-276 | the voices by provider of the names to check: the one asked for when registered, else every registered one |
| TtsApi.ErrorReply | backend/app/api/api_v1/endpoints/tts.py:164-172 | ValueError gives 400 with its message; everything else gives 500 |
| TtsApi.AudioType | backend/app/api/api_v1/endpoints/tts.py:351-359 | mp3 gives audio/mpeg and synthesis.mp3, wav audio/wav and synthesis.wav, anything else octet-stream named after the format as given |
| TtsApi.IndexOfByte | backend/app/api/api_v1/endpoints/tts.py:364-365 | the first position of the byte |
| TtsApi.LinesRoundTrip | backend/app/api/api_v1/endpoints/tts.py:361-365 | iterating the byte stream yields non-empty chunks, each but the last ending in a newline, that glue back into the audio |
| TtsApi.LinesFlatten | backend/app/api/api_v1/endpoints/tts.py:361-365 | the chunks glue back into the audio |
| TtsApi.LinesAt | backend/app/api/api_v1/endpoints/tts.py:361-365 | each chunk is non-empty and ends in a newline unless it is the last |
| TtsApi.AudioResponseSpec | backend/app/api/api_v1/endpoints/tts.py:347-381 | the response streams exactly the audio with its length in Content-Length, names the attachment after the format, reports the provider or "unknown", the voice and the language |
| TtsApi.SavedExtension | backend/app/api/api_v1/endpoints/tts.py:116-118 | mp3, wav or ogg: the lowered format when it is one of them, mp3 otherwise |
| TtsApi.SavedReplySpec | backend/app/api/api_v1/endpoints/tts.py:111-162 | a saved synthesis answers with the file's URL and the result's own duration, text, voice, sentences and metadata; the file holds the audio |
| TtsApi.BlankTextIsBadRequest | backend/app/api/api_v1/endpoints/tts.py:164-172 | every valid request whose text (1 to 5000 characters) is whitespace only is answered 400 by an enabled service, 500 by a disabled one |
| TtsApi.GetAudio | backend/app/api/api_v1/endpoints/tts.py:319-342 | a missing file is 404; otherwise the file under the temp directory, with its own name |
| TtsApi.SavedFileServedAsItsType | backend/app/api/api_v1/endpoints/tts.py:116-120 | a saved file is served with the media type of its extension |
| TtsApi.ServedType | backend/app/api/api_v1/endpoints/tts.py:332-340 | the served type of a saved path is the type of its extension |
| TtsApi.DottedExtension | backend/app/api/api_v1/endpoints/tts.py:333-338 | the dotted forms of the three extensions |
| TtsApi.FormatChars | backend/app/api/api_v1/endpoints/tts.py:117 | the three formats are plain names without dot or slash |
| TtsApi.SuffixOfSaved | backend/app/api/api_v1/endpoints/tts.py:120 | the suffix of a saved file's path is its extension |
| TtsApi.LowerKeeps | backend/app/api/api_v1/endpoints/tts.py:332 | a name without capitals is its own lower case |
| TtsApi.KnownMediaTypes | backend/app/api/api_v1/endpoints/tts.py:333-340 | .mp3, .wav and .ogg map to audio/mpeg, audio/wav and audio/ogg |
| TtsApi.OggLabelledTwoWays | backend/app/api/api_v1/endpoints/tts.py:333-359 | ogg audio is streamed as application/octet-stream but downloaded as audio/ogg |
| OcrVision.CountedChars | backend/app/providers/ocr/google_vision.py:211-213 | no more characters are counted than the text has |
| OcrVision.JapaneseChars | backend/app/providers/ocr/google_vision.py:214-219 | the Japanese characters are among the counted ones |
| OcrVision.DetectLanguage | backend/app/providers/ocr/google_vision.py:194-229 | no language exactly when nothing is counted; "ja" exactly when at least 30% of the counted characters are kana or kanji; otherwise "en" |
| OcrVision.DetectLanguageOf | backend/app/providers/ocr/google_vision.py:204-229 | the counting loop computes the heuristic's verdict |
| OcrVision.AllJapaneseCounts | backend/app/providers/ocr/google_vision.py:212-219 | every kana or kanji character is counted, and counted as Japanese |
| OcrVision.JapaneseTextIsJa | backend/app/providers/ocr/google_vision.py:224-227 | a non-empty text of kana and kanji only is "ja" |
| OcrVision.AsciiLettersCount | backend/app/providers/ocr/google_vision.py:212-219 | ASCII letters are counted and never Japanese |
| OcrVision.AsciiTextIsEn | backend/app/providers/ocr/google_vision.py:226-229 | a non-empty text of ASCII letters only is "en" |
| OcrVision.UncountedTextHasNoLanguage | backend/app/providers/ocr/google_vision.py:221-222 | digits, spaces and ASCII punctuation alone give no language |
| OcrVision.MoreJapaneseStaysJa | backend/app/providers/ocr/google_vision.py:224-227 | appending a Japanese character to a "ja" text keeps it "ja" |
| OcrVision.VisionRequestFor | backend/app/providers/ocr/google_vision.py:78-94 | the request carries the image, and an image context exactly when hints are given and non-empty |
| OcrVision.Boxes | backend/app/providers/ocr/google_vision.py:126-136 | one box per annotation, in order, with its text and vertices |
| OcrVision.Confidence | backend/app/providers/ocr/google_vision.py:149 | the confidence lies in [0.1, 0.95], and is 0.1 for a blank text |
| OcrVision.Ratio | backend/app/providers/ocr/google_vision.py:149 | a count over a positive count is non-negative, and zero for a zero count |
| OcrVision.ExtractText | backend/app/providers/ocr/google_vision.py:58-175 | the bounding-box loop yields the Vision extraction specification |
| OcrVision.VisionResultShape | backend/app/providers/ocr/google_vision.py:104-161 | with no annotations an empty text of confidence 0; otherwise the first annotation is the text, every later one a box in order, the confidence in [0.1, 0.95], the language the heuristic's and texts_count the number of annotations |
| OcrVision.VisionFailures | backend/app/providers/ocr/google_vision.py:96-175 | every failure names the provider; an error inside the response is re-wrapped as unexpected and loses its code; a code is kept exactly for a GoogleAPIError that has a `code` attribute (str of it, "None" included), and one without (such as RetryError) has none |
| OcrVision.ErrorCodeOf | backend/app/providers/ocr/google_vision.py:168 | no error code exactly when the exception has no `code` attribute |
| OcrService.ValidateImage | backend/app/services/ocr.py:107-166 | empty data is "Image data is empty"; an image that cannot be opened is "Invalid image data"; a result over 10 MiB is refused; success returns the converted image |
| OcrService.Service.constructor | backend/app/services/ocr.py:25-46 | the Vision provider is registered exactly when it builds and reports itself available |
| OcrService.Service.SelectProvider | backend/app/services/ocr.py:71-79 | none exactly when nothing is registered; a registered non-empty name is honoured; otherwise Vision when registered, else the first |
| OcrService.Service.ExtractTextFromImage | backend/app/services/ocr.py:48-105 | no provider is an OCRError; a bad image fails before the provider is asked; a success is the chosen provider's answer on the checked image; an OCRError passes through and anything else is wrapped as unexpected |
| OcrService.Service.AvailableProviders | backend/app/services/ocr.py:168-175 | the registered names |
| OcrService.NoProviderRefusesAll | backend/app/services/ocr.py:68-69 | a service without providers refuses every image and reports Vision unavailable |
| OcrService.VisionServesEveryRequest | backend/app/services/ocr.py:71-79 | with only Vision registered, every requested name goes to Vision, and any other name is unavailable |
| OcrService.ServiceIsVision | backend/app/services/ocr.py:81-105 | with Vision registered and a valid image, the service answers exactly what Vision answers on the checked image |
| OcrApi.LanguageHints | backend/app/api/api_v1/endpoints/ocr.py:71-73 | no hints for an absent or empty field; otherwise one stripped, comma-free hint per comma-separated piece |
| OcrApi.Respond | backend/app/api/api_v1/endpoints/ocr.py:89-97 | the response carries the result's text, language and provider exactly when the confidence lies in [0, 1]; otherwise 500 |
| OcrApi.OcrReply | backend/app/api/api_v1/endpoints/ocr.py:99-110 | an OCRError is 422 with its message; a result becomes the response |
| OcrApi.ExtractFromUpload | backend/app/api/api_v1/endpoints/ocr.py:26-110 | a missing or non-image content type is 400; over 10 MiB is 413, both before the service; otherwise the service's answer with the parsed hints |
| OcrApi.ExtractFromBase64 | backend/app/api/api_v1/endpoints/ocr.py:148-237 | no "data:image/" prefix is 400; no comma is 500; an undecodable part is 400; over 10 MiB is 413; otherwise the service's answer on the decoded bytes |
| OcrApi.EncodedPart | backend/app/api/api_v1/endpoints/ocr.py:180 | splitting once at the first comma keeps the encoded part, later commas included |
| OcrApi.VisionResultsAreAnswered | backend/app/api/api_v1/endpoints/ocr.py:89-97 | a Vision result always passes the response model, with provider google_vision |
| OcrApi.UidOfEitherForm | backend/app/api/api_v1/endpoints/ocr.py:240-248 | the dictionary and the object form give the same uid, and "unknown" when there is none |
| OcrApi.ProviderDescription | backend/app/api/api_v1/endpoints/ocr.py:251-266 | an unknown provider is described as "<name> OCR provider" |
| OcrApi.DefaultProvider | backend/app/api/api_v1/endpoints/ocr.py:139 | none exactly when there are no providers; otherwise a registered one, Vision when present |
| OcrApi.DefaultIsServiceChoice | backend/app/api/api_v1/endpoints/ocr.py:139 | the listed default is the provider the service picks when none is asked for |
| OcrApi.ProviderListing | backend/app/api/api_v1/endpoints/ocr.py:113-140 | one entry per registered provider, in order, with its availability and description; the default is the service's choice |
| PhotoScan.StripDataPrefix | backend/app/api/api_v1/endpoints/photo_scan.py:62-64 | a text without "data:" is kept; a data URL yields the comma-free text after its first comma; a data URL without a comma raises an IndexError |
| PhotoScan.DataUrlPayload | backend/app/api/api_v1/endpoints/photo_scan.py:63-64 | a data URL whose payload has no comma yields exactly that payload |
| PhotoScan.DecodeImage | backend/app/api/api_v1/endpoints/photo_scan.py:61-66 | a prefix failure is the error; otherwise the decoder's answer on the stripped text |
| PhotoScan.SavePage | backend/app/api/api_v1/endpoints/photo_scan.py:26-116 | 400 exactly when a given non-empty image does not decode; every other request ends in 500 at the page-service call |
| PhotoScan.ProcessPage | backend/app/api/api_v1/endpoints/photo_scan.py:166-182 | only an object is processed; a decoded image replaces image_base64; an undecodable one keeps it and sets image_data to None; a page without a truthy image is kept as it is |
| PhotoScan.ProcessedPages | backend/app/api/api_v1/endpoints/photo_scan.py:164-182 | a result exactly when every page is an object, one processed page per page in order |
| PhotoScan.ProcessPages | backend/app/api/api_v1/endpoints/photo_scan.py:164-182 | the page loop computes the processed pages |
| PhotoScan.PrefixFailureSticks | backend/app/api/api_v1/endpoints/photo_scan.py:166-167 | a page that is not an object spoils every longer list |
| PhotoScan.SaveMultiplePages | backend/app/api/api_v1/endpoints/photo_scan.py:118-208 | unparsable data, a non-list, an empty list or more than ten pages are 400; everything else ends in 500 at the page-service call |
| PhotoScan.UploadFrom | backend/app/api/api_v1/endpoints/photo_scan.py:250-283 | the storage calls made stay between the start and the number of files |
| PhotoScan.UploadImages | backend/app/api/api_v1/endpoints/photo_scan.py:231-245 | mismatched id and file counts are 400 and more than ten files 400, both before storage is called |
| PhotoScan.UploadPhotoScanImages | backend/app/api/api_v1/endpoints/photo_scan.py:210-302 | the loop computes the upload specification, counting the storage calls |
| PhotoScan.UploadFromSpec | backend/app/api/api_v1/endpoints/photo_scan.py:250-294 | success exactly when every file is an image and stored (the call neither raised nor answered status "error"); then one entry per file, numbered from 1 in order; on failure every file before the last call was stored |
| PhotoScan.UploadNumbering | backend/app/api/api_v1/endpoints/photo_scan.py:247-294 | within the limits: success exactly when all files are images and stored, with one entry per file numbered from 1; a 400 comes after storing every earlier file |
| PhotoScan.ResolveParams | backend/app/api/api_v1/endpoints/photo_scan.py:331-336 | a payload's parameters win over the query's; none exactly when one of the three used is missing or empty |
| PhotoScan.UploadImageBase64 | backend/app/api/api_v1/endpoints/photo_scan.py:304-384 | missing parameters are 422; an image that does not decode is 400; a storage call that raises is the generic 500; success means storage accepted the decoded image and the body names the note and page |
| PhotoScan.PayloadWins | backend/app/api/api_v1/endpoints/photo_scan.py:331-334 | with a complete payload, the query parameters make no difference |
| PhotoScan.LocalUploadsFail | backend/app/api/api_v1/endpoints/photo_scan.py:249-302 | the local provider has no `upload_photo_scan_image`: only a request with no files is 200, and one whose first file is an image ends in the generic 500 after one call |
| PhotoScan.LocalBase64UploadFails | backend/app/api/api_v1/endpoints/photo_scan.py:352-384 | on the local provider the base64 upload is never 200; once parameters resolve and the image decodes it is the generic 500 |
| PhotoScan.ImageUrl | backend/app/api/api_v1/endpoints/photo_scan.py:386-435 | a missing image is 404 naming note and page; a URL is returned with its expiry; any other error is 500 |
| PhotoScan.DeleteImages | backend/app/api/api_v1/endpoints/photo_scan.py:437-477 | success exactly when the deletion reports true; a false report is caught by the generic handler and answered 500 with "500: " in its text |
| PhotoScan.LocalImageUrlFails | backend/app/api/api_v1/endpoints/photo_scan.py:407-435 | on the local provider, which has no `get_photo_scan_image_url`, the URL request is always 500 with the AttributeError text |
| PhotoScan.LocalDeleteFails | backend/app/api/api_v1/endpoints/photo_scan.py:454-477 | on the local provider, which has no `delete_photo_scan_images`, deletion is always 500 with the AttributeError text |
| PubSubClient.PublishRequestFor | backend/app/utils/pubsub.py:53-85 | the publish goes to a topic path under the client's project; a dict is sent as its UTF-8 JSON, a text as its UTF-8 bytes; the attributes or none |
| PubSubClient.MockIdInjective | backend/app/utils/pubsub.py:140 | messages at different positions get different "mock-msg-" ids |
| PubSubClient.MockPubSubClient.constructor | backend/app/utils/pubsub.py:133-135 | the given non-empty project id, else the configured one; no messages kept |
| PubSubClient.MockPubSubClient.PublishMessage | backend/app/utils/pubsub.py:138-148 | the id is "mock-msg-" and the number of messages kept before; the message is appended with its topic, attributes and id; the project is unchanged |
| PubSubClient.MockPubSubClient.CreateSubscription | backend/app/utils/pubsub.py:150-154 | a path under the client's project ending in the subscription id |
| PubSubClient.MockIdsUnique | backend/app/utils/pubsub.py:138-148 | every message the in-memory client keeps has a different id |
| PubSubClient.SelectClient | backend/app/utils/pubsub.py:157-165 | the in-memory client is chosen exactly when the Pub/Sub feature is off |
| PubSubApi.ParseEnvelope | backend/app/api/api_v1/endpoints/pubsub.py:27-45 | the id, time and attributes are copied, attributes defaulting to an empty object; a truthy data is decoded and parsed; anything else gives an empty object |
| PubSubApi.DataDecoding | backend/app/api/api_v1/endpoints/pubsub.py:40-45 | missing or empty data gives an empty object; data that does not decode raises the decoder's error |
| PubSubApi.HandleMediaNew | backend/app/api/api_v1/endpoints/pubsub.py:48-102 | an unreadable body is 400; an envelope that does not decode is 500; success means a truthy media id was handed to the worker, and reports "success" exactly when the worker returned True |
| PubSubApi.MissingMediaIdIs500 | backend/app/api/api_v1/endpoints/pubsub.py:79-85 | a missing media id is caught by the generic handler and answered 500, never reaching the worker |
| PubSubApi.PublishedDictReachesWorker | backend/app/api/api_v1/endpoints/pubsub.py:39-95 | a dict published by the real client and delivered base64-encoded reaches the worker with its media id, and the worker's outcome is reported |
| AiFactory.ResearchProvider | backend/app/providers/ai/factory.py:23-42 | Anthropic exactly when the research setting lowers to "anthropic" and an Anthropic key is set; OpenAI otherwise, "google" included |
| AiFactory.ChatProvider | backend/app/providers/ai/factory.py:44-61 | Anthropic exactly when there is no OpenAI key and there is an Anthropic key; OpenAI otherwise |
| AiFactory.GetProvider | backend/app/providers/ai/factory.py:63-89 | no type means chat; research, openai and anthropic are matched in lower case; any other type means chat |
| AiFactory.CaseInsensitiveType | backend/app/providers/ai/factory.py:77 | two spellings of a type that lower to the same word choose the same provider |
| AiFactory.NoKeysMeansOpenAI | backend/app/providers/ai/factory.py:53-61 | without any key, every request except an explicit "anthropic" gets OpenAI |
| AnthropicProvider.Summarize | backend/app/providers/ai/anthropic/provider.py:48-109 | no key gives the fixed message; otherwise the Messages reply, else the Completions reply to the fallback prompt, else the error text; a length note only for a non-zero maximum |
| AnthropicProvider.Proofread | backend/app/providers/ai/anthropic/provider.py:111-206 | no key gives the text back with the fixed error; both APIs failing gives the text back with the error; a reply whose fenced part parses is that parse, else the text with the parse error |
| AnthropicProvider.ProofreadReadsJsonBlock | backend/app/providers/ai/anthropic/provider.py:184-191 | a reply holding a json-fenced block that parses is answered with that block, whatever surrounds it |
| AnthropicProvider.RegexFencedBlock | backend/app/providers/ai/anthropic/provider.py:294-299 | no block without a fence; a block found is stripped and holds no fence |
| AnthropicProvider.RegexReadsJsonBlock | backend/app/providers/ai/anthropic/provider.py:295-299 | a json-fenced block is found and stripped |
| AnthropicProvider.BracketSpan | backend/app/providers/ai/anthropic/provider.py:305-309 | no span exactly when there is no '[' or no ']' after the first '['; a span opens with '[', closes with ']' and occurs in the text |
| AnthropicProvider.JsonCandidate | backend/app/providers/ai/anthropic/provider.py:290-313 | the fenced block when there is one, else the bracketed span |
| AnthropicProvider.WholeSpan | backend/app/providers/ai/anthropic/provider.py:302-303 | a text that opens with '[' and closes with ']' is its own span, so the second case agrees with the third |
| AnthropicProvider.Formatted | backend/app/providers/ai/anthropic/provider.py:328-339 | no more items are kept than were given |
| AnthropicProvider.FormatResults | backend/app/providers/ai/anthropic/provider.py:327-339 | the loop keeps exactly the formatted items, in order |
| AnthropicProvider.FormattedWellFormed | backend/app/providers/ai/anthropic/provider.py:329-339 | every kept item has title, content, relevance and source |
| AnthropicProvider.FormatItemKeeps | backend/app/providers/ai/anthropic/provider.py:330-339 | an item is kept exactly when it is a dict with title and content; it keeps all its fields and gains the missing defaults |
| AnthropicProvider.SliceTo | backend/app/providers/ai/anthropic/provider.py:343 | Python's prefix slice: the first n items, counted from the end when n is negative |
| AnthropicProvider.RunLength | backend/app/providers/ai/anthropic/provider.py:354 | the longest run of non-whitespace characters from a position |
| AnthropicProvider.SchemeAt | backend/app/providers/ai/anthropic/provider.py:354 | a match of "http://" or "https://" followed by a non-whitespace character, or none |
| AnthropicProvider.UrlFrom | backend/app/providers/ai/anthropic/provider.py:354-355 | the first URL match at or after a position, with no match starting before it; none when no match starts anywhere after |
| AnthropicProvider.SourceOf | backend/app/providers/ai/anthropic/provider.py:353-356 | "情報源なし" when the reply holds no URL; otherwise a whitespace-free text starting with "http" that occurs in the reply |
| AnthropicProvider.UrlSpan | backend/app/providers/ai/anthropic/provider.py:354-356 | a match starts with "http", occurs in the text and holds no whitespace |
| AnthropicProvider.Research | backend/app/providers/ai/anthropic/provider.py:208-390 | no key gives one error item; a reply is read as a result list; when the request raises, the retry's reply is one item with no source, or one error item with relevance 0 |
| AnthropicProvider.ResearchResultShape | backend/app/providers/ai/anthropic/provider.py:323-363 | every item has title, content, relevance and source; with none kept, the raw reply is the one item; otherwise the kept items in order, at most max_results of them |
| AnthropicProvider.FromKeptShape | backend/app/providers/ai/anthropic/provider.py:342-363 | from well-formed kept items: the same shape as above |
| AnthropicProvider.KeptWellFormed | backend/app/providers/ai/anthropic/provider.py:325-339 | every item kept from a reply is well formed |
| AnthropicProvider.AsWrittenCountNotInterpolated | backend/app/providers/ai/anthropic/provider.py:272 | the request asks for "{max_results}" results, braces included, whatever the number |
| AnthropicProvider.CorrectedCountInterpolated | backend/app/providers/ai/anthropic/provider.py:272 | read as the f-string it resembles, different counts give different requests |
| AnthropicProvider.MessagesFor | backend/app/providers/ai/anthropic/provider.py:426-429 | one message per message with the same content; "user" stays and every other role becomes "assistant" |
| AnthropicProvider.TurnsStep | backend/app/providers/ai/anthropic/provider.py:454-460 | the prompt of one more message is the prompt so far and that message's turn |
| AnthropicProvider.AppendTurn | backend/app/providers/ai/anthropic/provider.py:455-460 | what one pass of the loop appends is the message's turn |
| AnthropicProvider.CompletionPrompt | backend/app/providers/ai/anthropic/provider.py:447-464 | the prompt opens with the human marker, extends the conversation, and ends with the assistant marker, added only when missing |
| AnthropicProvider.BuildCompletionPrompt | backend/app/providers/ai/anthropic/provider.py:446-464 | the loop builds the completion prompt |
| AnthropicProvider.Chat | backend/app/providers/ai/anthropic/provider.py:392-478 | no key gives the fixed message; otherwise the Messages reply with the default system prompt for an empty one, else the Completions reply, else the error text |
| AnthropicProvider.TurnsOfUsers | backend/app/providers/ai/anthropic/provider.py:455-458 | in a conversation of two or more user messages, the human marker appears between them |
| AnthropicProvider.RemoveAll | backend/app/providers/ai/anthropic/provider.py:523 | removal never lengthens a text and leaves a text without the pattern as it is |
| AnthropicProvider.RemoveCharGone | backend/app/providers/ai/anthropic/provider.py:524 | removing a character leaves none of it, and removing it again changes nothing |
| AnthropicProvider.CleanTitle | backend/app/providers/ai/anthropic/provider.py:520-524 | a cleaned title holds no double quote and neither starts nor ends with whitespace |
| AnthropicProvider.StripKeepsOut | backend/app/providers/ai/anthropic/provider.py:524 | stripping adds no character |
| AnthropicProvider.SecondQuoteRemovalIsIdle | backend/app/providers/ai/anthropic/provider.py:524 | the second removal of the double quote finds nothing left |
| AnthropicProvider.GenerateTitle | backend/app/providers/ai/anthropic/provider.py:480-557 | no key gives the fixed message; otherwise the cleaned Messages reply, else the cleaned Completions reply, else the error text |
| AnthropicProvider.NoKeyNoCalls | backend/app/providers/ai/anthropic/provider.py:59-60 | without a key, no operation depends on what the APIs would answer |
| YahooProvider.RenderFurigana | backend/app/providers/ai/yahoo/provider.py:93-106 | the word loop computes the rendered html and plain texts, or the exception of the first word that raises |
| YahooProvider.RenderingFailureSticks | backend/app/providers/ai/yahoo/provider.py:97 | once some prefix of the words raises, the whole loop raises the same exception |
| YahooProvider.NoReadingsSameText | backend/app/providers/ai/yahoo/provider.py:103-106 | words without readings give the same html and plain text: the surfaces joined in order |
| YahooProvider.RubyAndBrackets | backend/app/providers/ai/yahoo/provider.py:98-102 | a word with a reading appears as ruby markup in the html and with its reading in brackets in the plain text |
| YahooProvider.AddFurigana | backend/app/providers/ai/yahoo/provider.py:35-119 | no client id, a failed call, a status other than 200, a missing "result" or a raising loop echo the input with an error; no error exactly when the loop ran to its end |
| YahooProvider.MissingWordList | backend/app/providers/ai/yahoo/provider.py:97 | a result without a "word" list is a KeyError, reported with the key behind the error prefix |
| YahooProvider.Definitions | backend/app/providers/ai/yahoo/provider.py:205 | one definition per meaning, in order |
| YahooProvider.ScanTokens | backend/app/providers/ai/yahoo/provider.py:186-206 | the token loop computes the scan specification, stopping at the first token that raises |
| YahooProvider.ScanRaisedSticks | backend/app/providers/ai/yahoo/provider.py:186 | once a prefix of the tokens raises, the scan stays as it stood |
| Seqs.DedupMeaning | backend/app/providers/ai/yahoo/provider.py:188-189 | the deduplicated list holds each element of the input, and each exactly once |
| Seqs.DedupOfDistinct | backend/app/providers/ai/yahoo/provider.py:188-189 | a list without repeats is left as it is |
| YahooProvider.ScanCollects | backend/app/providers/ai/yahoo/provider.py:186-206 | a loop that raises nothing collects each token reading and each qualifying lemma once, in first-seen order |
| YahooProvider.ScanReadings | backend/app/providers/ai/yahoo/provider.py:188-189 | the readings are the distinct truthy token readings in first-seen order |
| YahooProvider.ScanDefinitions | backend/app/providers/ai/yahoo/provider.py:195-206 | the definitions are the distinct qualifying lemmas in first-seen order |
| YahooProvider.MeaningsQualify | backend/app/providers/ai/yahoo/provider.py:195-198 | every meaning's definition differs from the word, is truthy and is longer than one |
| YahooProvider.CollectRelated | backend/app/providers/ai/yahoo/provider.py:224-227 | the related words are the distinct items in first-seen order |
| YahooProvider.DictionaryLookup | backend/app/providers/ai/yahoo/provider.py:121-236 | the entry names the word; no client id, a failed call or a status other than 200 give the two-key failure; an entry without error has a meaning and no related words |
| YahooProvider.WellFormedCompletes | backend/app/providers/ai/yahoo/provider.py:172-218 | a result holding only a token list that scans without raising completes with the scan's readings and meanings, and no related words |
| YahooProvider.WellFormedParse | backend/app/providers/ai/yahoo/provider.py:172-218 | tokens that are all dicts give an entry without error: distinct readings in first-seen order, and the distinct qualifying lemmas as meanings, or the word itself when there are none |
| YahooProvider.NoRaise | backend/app/providers/ai/yahoo/provider.py:186-206 | dict tokens whose qualifying lemmas all have a length raise nothing |
| YahooProvider.NumericLemmaInterrupts | backend/app/providers/ai/yahoo/provider.py:198-227 | a numeric lemma raises: the reading gathered survives, no meaning is added, the parse error is set and the related words are collected |
| AiService.Summarize | backend/app/services/ai/service.py:32-47 | the provider's summary, or, when it raises, its message behind "要約中にエラーが発生しました: " |
| AiService.GenerateTitle | backend/app/services/ai/service.py:49-64 | the provider's title, or, when it raises, its message behind the title error prefix |
| AiService.Proofread | backend/app/services/ai/service.py:66-84 | the provider's result, or, when it raises, the text back with no corrections and the error |
| AiService.Research | backend/app/services/ai/service.py:86-103 | the research provider's items, or, when it raises, one item titled "エラー" holding the error |
| AiService.Chat | backend/app/services/ai/service.py:105-120 | the provider's reply, or, when it raises, its message behind the chat error prefix |
| AiService.AnthropicAnswersPassThrough | backend/app/services/ai/service.py:43-47 | the Anthropic provider never raises, so its summary, title and chat answer arrive unchanged through the service |
| AiService.CleanLine | backend/app/services/ai/service.py:236-237 | a line opening with a fence is emptied; a line without '：' is kept; otherwise everything up to its first '：' goes |
| AiService.CleanLines | backend/app/services/ai/service.py:236-237 | the substitutions act line by line: one cleaned line per line |
| AiService.ConvertText | backend/app/services/ai/service.py:200-244 | an unknown target type is refused with the list of valid ones; otherwise the chat reply cleaned, or the error when the chat raises |
| AiService.InvalidTypeNoCall | backend/app/services/ai/service.py:213-215 | an unknown target type gives the same answer whatever the provider would do |
| AiService.PlainReplyUnchanged | backend/app/services/ai/service.py:235-240 | a stripped reply with no fence line and no '：' comes back unchanged |
| AiService.PlainLinesKept | backend/app/services/ai/service.py:236-237 | lines with no fence at their start and no '：' survive the cleanup |
| AiService.CleanReplyShape | backend/app/services/ai/service.py:236-238 | the result is stripped, and a reply made only of fence lines comes back empty |
| AiService.JoinOfEmpties | backend/app/services/ai/service.py:236-238 | joining emptied lines leaves only newlines, which the strip removes |
| AiService.JoinStep | backend/app/services/ai/service.py:236-238 | joining lines peels off the first line and a newline |
| AiService.AddFurigana | backend/app/services/ai/service.py:122-198 | a Yahoo! result is returned as it is exactly when it has no error; otherwise the chat's parsed fenced reply, or the input echoed with an error when the reply does not parse or the chat raises |
| AiService.FuriganaWithoutClientId | backend/app/services/ai/service.py:138-140 | without a Yahoo! client id the service always falls back to the chat |
| AiService.DictionaryLookup | backend/app/services/ai/service.py:246-320 | the Yahoo! result is returned exactly when the fallback test fails; otherwise the chat's parsed reply, the raw reply with an error when it does not parse, or the error when the chat raises |
| AiService.AsWrittenYahooDictionaryDiscarded | backend/app/services/ai/service.py:264 | as written, no Yahoo! lookup is ever returned, not even an entry without error |
| AiService.CorrectedYahooDictionaryKept | backend/app/services/ai/service.py:264 | testing the truth of the error, an entry without error is returned as it is and a Yahoo! failure still goes to the chat |

## Left out

- Cloud and SDK I/O are oracles whose answers are parameters. This covers:
  - the Cloud Storage client. Each GCS read, write and save that the provider makes is a fault parameter of the operation that makes it (`GcsStorage.UploadChunkOn`, `GcsStorage.CompleteOn`, `GcsStorage.UploadPhotoOn`, `GcsStorageProvider.GenerateUploadUrl`, `GcsStorageProvider.UploadFile`, `GcsStorageProvider.DeleteFile`);
  - yt-dlp subtitle download and the HTML extractors (`_extract_from_youtube`, `_extract_from_webpage`, `_extract_main_content`);
  - pypdf page text and chardet detection;
  - `mimetypes` guessing;
  - the Speech, Vision, TTS-engine, Anthropic and Yahoo! HTTP calls.
- UrlSplit: does not model the NFKC check `urlsplit` makes on a non-ASCII authority, which raises ValueError when normalization brings in one of `/?#@:` (as for "https://a\uFF0Fb"). So `UrlImporter.GetUrlType`, `UrlImporter.SupportedIffSplits` and `UrlImporter.IsValidUrl` accept such URLs where the program refuses them. Unicode normalization tables are not modelled.
- GcsStorage.GcsStorageProvider.GetFileUrl: `generate_signed_url` is a total oracle (`signUrl`), so a signing failure is not modelled here, nor in `GenerateUploadUrl` or `GetPhotoScanImageUrl`.
- GcsStorage.CompleteOn: a chunk download raises only for a missing object, and the `os.unlink` of the temporary file is taken to succeed.
- NotebookService.Notebooks.CreateWithOwner, LinkNewTags, UpdateNotebook and ReplaceTags: a tag appended twice to `notebook.tags` is linked once, which is what `notebook_tags` can hold. If SQLAlchemy's flush instead issues the repeated (notebook_id, tag_id) insert, the commit fails with IntegrityError and nothing of the call is stored; that outcome is not modelled.
- StorageBase.StatusOf: the `result` key of the `get_media_status` reply (backend/app/providers/storage/local.py:308, 316; backend/app/providers/storage/gcs.py:358, 366) is not modelled; only the left-out progress simulation writes it.
- ImportSchema.MakeUrlRequest: the `HttpUrl` parse and normalization is an oracle parameter (`UrlParser`); what pydantic accepts and how it rewrites the URL are not modelled.
- Image resizing with PIL before a Vision request (backend/app/services/ocr.py:107-166) is not modelled; it is a `preprocess` oracle in `OcrService.ValidateImage`, whose result, not the raw bytes, reaches the provider.
- The asyncio progress simulation of the storage providers (backend/app/providers/storage/local.py:251-287, backend/app/providers/storage/gcs.py:294-337) runs concurrently with later requests. Each provider operation is one atomic step, so the race on the chunk metadata between concurrent `upload_chunk` calls is not modelled.
- The WebSocket speech-to-text stream is not modelled. It is concurrent and has no state of its own beyond the STT oracle.
- Floating-point arithmetic is modelled as exact `real` arithmetic. Rounding in progress fractions, durations and confidences is not captured.
- Authentication is not modelled: the caller's uid is an opaque string handed to every endpoint.
- The notebook, page, media and AI routers only delegate to the services that are modelled. Their request/response plumbing is not part of this model.
- backend/app/providers/ai/openai/provider.py and its `provider_fixed.py` copy are not part of this model. The factory's OpenAI entry is an opaque provider.
- `handwriting_tts.py`, the STT mock and the legacy code under docs/ are not part of this model.
- The models, schemas and settings modules only declare types and constants. They appear as datatypes and constants where the core uses them.
- Settings that the settings module does not declare are parameters of the operations that read them. These are `MAX_DIRECT_UPLOAD_SIZE`, `MAX_CHUNK_SIZE`, `STORAGE_PROVIDER`, `IMPORT_SPLIT_ENABLED`, the `TTS_*` settings and the provider API keys.
- Notebook `search_by_user` (backend/app/services/notebook.py:59-89) is not modelled. It is a database text query whose matching is done by SQL `ILIKE`.
- TTS `get_supported_languages` and `get_provider_status` (backend/app/services/tts_service.py:278-330) are not modelled. Neither is the `/voices`, `/languages` and `/status` endpoints that only wrap them (backend/app/api/api_v1/endpoints/tts.py:219-316). They report the oracles' catalogues without further logic.
- TtsApi.StreamEndpoint models `synthesize_text_stream` (backend/app/api/api_v1/endpoints/tts.py:175-216). It has no contract of its own: its reply is the same as the audio branch of `SynthesizeEndpoint`.
- The real Pub/Sub client's credential loading (backend/app/utils/pubsub.py:22-51) is not modelled. Neither is its `create_subscription` call into the SDK (backend/app/utils/pubsub.py:92-126). The mock client, the message encoding and the push endpoint are modelled.
- In the Anthropic `chat`, the first conversation loop builds a prompt that is never used (backend/app/providers/ai/anthropic/provider.py:412-421). It is not modelled.
- OCR `get_available_providers` (backend/app/api/api_v1/endpoints/ocr.py:142-145): the 500 path for an exception is not modelled. Listing the providers raises nothing in the model.
- The photo-scan page save calls page-service operations that backend/app/services/page.py does not define. The model therefore answers 500 to every such save that passes the input checks (`PhotoScan.SavePage`, `PhotoScan.SaveMultiplePages`); the page write that was evidently intended is not modelled.
- AnthropicProvider.NoKeyNoCalls cites the first no-key check (backend/app/providers/ai/anthropic/provider.py:59-60). The same guard at lines 121-126, 221-222, 403-404 and 491-492 is covered by the same lemma.

## Findings

| source | as written | input that shows it | evidently intended | confidence | as-written member | corrected member |
|---|---|---|---|---|---|---|
| backend/app/workers/media_worker.py:56 | `crud_media` is never imported: the module imports `media_asset` (line 21). The first lookup raises NameError, which the handler turns into False. Binding the name alone does not help: the CRUD methods are synchronous (backend/app/services/base.py:34, 63, 81) and the push endpoint hands over a synchronous session, so `await media_asset.get(...)` raises TypeError and again every call returns False with nothing written. | any media id | look the asset up with the imported media service through awaitable store calls (as the unit tests' AsyncMocks provide) and process it | not executed | MediaWorker.AsWrittenNeverProcesses | MediaWorker.TwoStatusWrites |
| backend/app/workers/media_worker.py:62-66 | status writes use the key `processing_status`, which is not a media column. The generic update drops unknown keys (backend/app/services/base.py:104-106). | an existing AUDIO asset in PENDING | the write sets the asset's `status` column, PROCESSING then COMPLETED or FAILED | not executed | MediaWorker.StatusWritesDropped | MediaWorker.CorrectedStatusLands |
| backend/app/workers/media_worker.py:141-159 | reads `media.language`, which the media model does not have. It also passes a `language` key, which the transcript model does not accept. | an existing AUDIO asset whose file exists | transcribe with the default language and store text, confidence and provider | not executed | MediaWorker.LegacyAudioNeverTranscribes | MediaWorker.CorrectedAudioTranscribes |
| backend/app/services/url_importer.py:564-568 | the merge test ignores the two-character paragraph separator | "aa\n\nbbb" with max_chars 5 gives one chunk of 7 characters | no chunk longer than max_chars | not executed | ChunkSplit.AsWrittenOverflow | ChunkSplit.ChunksWithinLimit |
| backend/app/providers/tts/gemini.py:97-113 | builds `SynthesisResult` with keywords its constructor does not accept, so TypeError | any request for which the engine returns audio | return the synthesized audio with the accepted fields | not executed | TtsGemini.AsWrittenNeverSynthesizes | TtsGemini.CorrectedSynthesizes |
| backend/app/providers/tts/gemini.py:125-153 | builds `VoiceInfo` with an `id` keyword it does not accept, so TypeError | any voice-list request | list the Gemini voices | not executed | TtsGemini.AsWrittenListsNoVoices | TtsGemini.CorrectedListsVoices |
| backend/app/providers/ai/anthropic/provider.py:272 | `{max_results}` sits in a plain string, not an f-string | max_results 5 sends the literal text "{max_results}" | the prompt states the requested number | not executed | AnthropicProvider.AsWrittenCountNotInterpolated | AnthropicProvider.CorrectedCountInterpolated |
| backend/app/services/ai/service.py:264 | `"error" in result` tests for the key. The Yahoo! formatted result always has that key, set to None on success (backend/app/providers/ai/yahoo/provider.py:172-179). | a successful dictionary lookup | discard the result only when its error is set | not executed | AiService.AsWrittenYahooDictionaryDiscarded | AiService.CorrectedYahooDictionaryKept |
