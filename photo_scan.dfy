/**
 * The photo-scan endpoints (backend/app/api/api_v1/endpoints/photo_scan.py): stripping
 * of a `data:` prefix before base64 decoding, the checks on page lists and uploaded
 * files, the resolution of the base64 upload's parameters, the per-page upload loop and
 * its numbering, and the error statuses. Base64 decoding, JSON parsing and the storage
 * provider are oracles; the page service the two save endpoints call has no such
 * operations, so those calls always raise and end in 500.
 */
module PhotoScan {
  import opened Wrappers
  import opened Strings
  import opened JsonValue

  /** An endpoint's answer: a 200 body, an HTTPException with its status and detail, or
      a 500 whose detail is `prefix` followed by the text of an exception the code did
      not anticipate. */
  datatype Reply<T> = Ok(body: T) | HttpError(status: nat, detail: string) | Crashed(prefix: string)

  /** `base64.b64decode`: the bytes, or the message of what it raised. */
  type Decoder = string -> Result<seq<bv8>, string>

  /** At most this many pages or images per request. */
  const MaxPages: nat := 10

  // ---------------------------------------------------------------------------------
  // Base64 images

  /** `s.split(',')[1]` when `s` starts with "data:": the text between the first comma
      and the next one; an IndexError when there is no comma. */
  function StripDataPrefix(s: string): (r: Result<string, string>)
    ensures !StartsWith(s, "data:") ==> r == Success(s)
    ensures StartsWith(s, "data:") && ',' !in s ==> r == Failure("list index out of range")
    ensures StartsWith(s, "data:") && ',' in s ==> r == Success(Split(s, ',')[1]) && ',' !in r.value
  {
    if !StartsWith(s, "data:") then Success(s)
    else
      var pieces := Split(s, ',');
      if |pieces| < 2 then
        assert ',' !in s by {
          assert Join(pieces, ",") == s;
        }
        Failure("list index out of range")
      else
        assert ',' in s by {
          assert Join(pieces, ",") == pieces[0] + "," + Join(pieces[1..], ",");
          assert s[|pieces[0]|] == ',';
        }
        Success(pieces[1])
  }

  /** A data URL whose payload has no comma yields that payload. */
  lemma DataUrlPayload(header: string, payload: string)
    requires StartsWith(header, "data:") && ',' !in header && ',' !in payload
    ensures StripDataPrefix(header + "," + payload) == Success(payload)
  {
    var s := header + "," + payload;
    assert s[..5] == header[..5];
    assert s[|header|] == ',';
    assert s[..|header|] == header && s[|header| + 1..] == payload;
    assert ',' !in s[..|header|];
    assert IndexOfChar(s, ',') == |header|;
    assert Split(s[|header| + 1..], ',') == [payload];
  }

  /** The prefix stripping, then the decoder. */
  function DecodeImage(s: string, b64: Decoder): (r: Result<seq<bv8>, string>)
    ensures StripDataPrefix(s).Failure? ==> r == Failure(StripDataPrefix(s).error)
    ensures StripDataPrefix(s).Success? ==> r == b64(StripDataPrefix(s).value)
  {
    match StripDataPrefix(s)
    case Failure(e) => Failure(e)
    case Success(encoded) => b64(encoded)
  }

  const DecodeErrorPrefix := "Base64デコードエラー: "

  // ---------------------------------------------------------------------------------
  // save-page and save-multiple-pages

  const SavePageCrash := "ページ保存処理でエラーが発生しました: "

  /** `save_photo_scan_page`: a present image that does not decode is 400; any other
      request reaches the missing page-service call and ends in 500. A metadata string
      that does not parse is ignored. */
  function SavePage(imageBase64: Option<string>, b64: Decoder): (r: Reply<()>)
    ensures r.HttpError? <==> imageBase64.Some? && imageBase64.value != "" && DecodeImage(imageBase64.value, b64).Failure?
    ensures r.HttpError? ==> r == HttpError(400, DecodeErrorPrefix + DecodeImage(imageBase64.value, b64).error)
    ensures !r.HttpError? ==> r == Crashed(SavePageCrash)
  {
    if imageBase64.Some? && imageBase64.value != "" && DecodeImage(imageBase64.value, b64).Failure? then
      HttpError(400, DecodeErrorPrefix + DecodeImage(imageBase64.value, b64).error)
    else Crashed(SavePageCrash)
  }

  /** The image of a processed page: none given, decoded bytes, or None after a decoding
      failure. */
  datatype ImageField = NotGiven | Decoded(data: seq<bv8>) | Undecodable

  /** A processed page: its other keys, and its `image_data`. */
  datatype ProcessedPage = ProcessedPage(fields: map<string, Json>, image: ImageField)

  /** One page of the list: a truthy `image_base64` that decodes is replaced by its
      bytes; one that does not decode leaves `image_base64` in place and sets
      `image_data` to None. Anything but an object raises. */
  function ProcessPage(page: Json, b64: Decoder): (r: Option<ProcessedPage>)
    ensures r.Some? <==> page.JObject?
    ensures r.Some? && r.value.image.Decoded? ==> "image_base64" !in r.value.fields
    ensures r.Some? && r.value.image.Undecodable? ==> r.value.fields == page.fields - {"image_data"}
    ensures r.Some? && r.value.image.NotGiven? ==>
      r.value.fields == page.fields && ("image_base64" !in page.fields || !Truthy(page.fields["image_base64"]))
  {
    match page
    case JObject(f) =>
      if "image_base64" in f && Truthy(f["image_base64"]) then
        var given := f["image_base64"];
        var decoded := if given.JStr? then DecodeImage(given.s, b64) else Failure("not a string");
        if decoded.Success? then Some(ProcessedPage(f - {"image_base64", "image_data"}, Decoded(decoded.value)))
        else Some(ProcessedPage(f - {"image_data"}, Undecodable))
      else Some(ProcessedPage(f, NotGiven))
    case _ => None
  }

  /** The pages in order, or None when one of them is not an object. */
  function ProcessedPages(pages: seq<Json>, b64: Decoder): (r: Option<seq<ProcessedPage>>)
    ensures r.Some? <==> forall k :: 0 <= k < |pages| ==> pages[k].JObject?
    ensures r.Some? ==> |r.value| == |pages| && forall k :: 0 <= k < |pages| ==> Some(r.value[k]) == ProcessPage(pages[k], b64)
  {
    if pages == [] then Some([])
    else
      var init := ProcessedPages(pages[..|pages| - 1], b64);
      var last := ProcessPage(pages[|pages| - 1], b64);
      if init.Some? && last.Some? then Some(init.value + [last.value]) else None
  }

  /** The page loop of `save_multiple_photo_scan_pages`. */
  method ProcessPages(pages: seq<Json>, b64: Decoder) returns (r: Option<seq<ProcessedPage>>)
    ensures r == ProcessedPages(pages, b64)
  {
    var processed: seq<ProcessedPage> := [];
    for i := 0 to |pages|
      invariant ProcessedPages(pages[..i], b64) == Some(processed)
    {
      assert pages[..i + 1][..i] == pages[..i];
      var page := pages[i];
      if !page.JObject? {
        assert ProcessedPages(pages[..i + 1], b64).None?;
        PrefixFailureSticks(pages, i + 1, b64);
        assert pages[..|pages|] == pages;
        return None;
      }
      var f := page.fields;
      var processedPage := ProcessedPage(f, NotGiven);
      if "image_base64" in f && Truthy(f["image_base64"]) {
        var given := f["image_base64"];
        var decoded := if given.JStr? then DecodeImage(given.s, b64) else Failure("not a string");
        if decoded.Success? {
          processedPage := ProcessedPage(f - {"image_base64", "image_data"}, Decoded(decoded.value));
        } else {
          processedPage := ProcessedPage(f - {"image_data"}, Undecodable);
        }
      }
      processed := processed + [processedPage];
    }
    assert pages[..|pages|] == pages;
    r := Some(processed);
  }

  /** A page that is not an object spoils every longer prefix. */
  lemma {:induction false} PrefixFailureSticks(pages: seq<Json>, i: nat, b64: Decoder)
    requires i <= |pages| && ProcessedPages(pages[..i], b64).None?
    ensures ProcessedPages(pages, b64).None?
    decreases |pages| - i
  {
    if i < |pages| {
      assert pages[..i + 1][..i] == pages[..i];
      PrefixFailureSticks(pages, i + 1, b64);
    } else {
      assert pages[..i] == pages;
    }
  }

  const MultiCrash := "一括ページ保存処理でエラーが発生しました: "

  /** `save_multiple_photo_scan_pages`: `pages_data` must parse as a list of 1 to 10
      items, else 400; past that, the missing page-service call (or a page that is not
      an object) ends in 500. */
  function SaveMultiplePages(parsed: Result<Json, string>, b64: Decoder): (r: Reply<()>)
    ensures parsed.Failure? ==> r == HttpError(400, "ページデータJSONパースエラー: " + parsed.error)
    ensures parsed.Success? && (!parsed.value.JArray? || parsed.value.items == []) ==>
      r == HttpError(400, "無効なページデータです")
    ensures parsed.Success? && parsed.value.JArray? && |parsed.value.items| > MaxPages ==>
      r == HttpError(400, "ページは最大10ページまで保存できます")
    ensures parsed.Success? && parsed.value.JArray? && 1 <= |parsed.value.items| <= MaxPages ==>
      r == Crashed(MultiCrash)
  {
    match parsed
    case Failure(e) => HttpError(400, "ページデータJSONパースエラー: " + e)
    case Success(j) =>
      if !j.JArray? || j.items == [] then HttpError(400, "無効なページデータです")
      else if |j.items| > MaxPages then HttpError(400, "ページは最大10ページまで保存できます")
      else
        match ProcessedPages(j.items, b64)
        case None => Crashed(MultiCrash)
        case Some(_) => Crashed(MultiCrash)
  }

  // ---------------------------------------------------------------------------------
  // Storage uploads

  /** What the storage provider's `upload_photo_scan_image` returns, by key. */
  datatype StoreResult = StoreResult(status: Option<string>, error: Option<string>, filePath: Option<string>,
                                     localUrl: Option<string>, gcsUrl: Option<string>)

  /** The storage call: note id, page id, image and user id; a failure is the text of
      what the call raised. */
  type Store = (string, string, seq<bv8>, Option<string>) -> Result<StoreResult, string>

  /** The providers `get_storage_provider` returns, by `STORAGE_PROVIDER`. Only the Cloud
      Storage provider defines the photo-scan methods. */
  datatype StorageKind = LocalKind | GcsKind

  /** The text of the AttributeError raised by calling a method the local provider lacks. */
  function MissingMethod(name: string): string {
    "'LocalStorageProvider' object has no attribute '" + name + "'"
  }

  /** `upload_photo_scan_image` on a provider of `kind`, the Cloud Storage one answering `gcs`. */
  function StoreOn(kind: StorageKind, gcs: Store): Store {
    if kind == GcsKind then gcs
    else (n: string, p: string, d: seq<bv8>, u: Option<string>) => Failure(MissingMethod("upload_photo_scan_image"))
  }

  /** A storage answer that lets the upload go on: no exception and no status "error". */
  predicate Stored(res: Result<StoreResult, string>) {
    res.Success? && res.value.status != Some("error")
  }

  /** An uploaded file: its content type (None when the client sent none) and bytes. */
  datatype ImageFile = ImageFile(contentType: Option<string>, data: seq<bv8>)

  /** One `uploaded_images` entry. */
  datatype UploadEntry = UploadEntry(pageId: string, pageNumber: nat, status: string, filePath: Option<string>,
                                     localUrl: Option<string>, gcsUrl: Option<string>)

  datatype UploadedBody = UploadedBody(noteId: string, totalPages: nat, uploaded: seq<UploadEntry>, message: string)

  const UploadCrash := "画像保存処理でエラーが発生しました: "

  function EntryFor(pageId: string, i: nat, res: StoreResult): UploadEntry {
    UploadEntry(pageId, i + 1, "success", res.filePath, res.localUrl, res.gcsUrl)
  }

  /** The upload loop from page `i` on, with the entries made so far: a file that is not
      an image stops it with 400, a storage answer with status "error" with 500, and a
      storage call that raises with the generic 500. The second component counts the
      storage calls made. */
  function UploadFrom(noteId: string, pageIds: seq<string>, images: seq<ImageFile>, userId: Option<string>,
                      store: Store, i: nat, done: seq<UploadEntry>): (r: (Reply<UploadedBody>, nat))
    requires |pageIds| == |images| && i <= |images|
    ensures i <= r.1 <= |images|
    decreases |images| - i
  {
    if i == |images| then
      (Ok(UploadedBody(noteId, |done|, done, NatToString(|done|) + "ページの画像保存が完了しました")), i)
    else
      var file := images[i];
      if file.contentType.None? then (Crashed(UploadCrash), i)
      else if !StartsWith(file.contentType.value, "image/") then
        (HttpError(400, "ページ" + NatToString(i + 1) + ": 無効なファイル形式 " + file.contentType.value), i)
      else
        match store(noteId, pageIds[i], file.data, userId)
        case Failure(_) => (Crashed(UploadCrash), i + 1)
        case Success(res) =>
          if res.status == Some("error") then
            (HttpError(500, "ページ" + NatToString(i + 1) + "の画像保存に失敗: " + ErrorText(res.error)), i + 1)
          else UploadFrom(noteId, pageIds, images, userId, store, i + 1, done + [EntryFor(pageIds[i], i, res)])
  }

  /** `str(result.get('error'))` */
  function ErrorText(e: Option<string>): string {
    if e.Some? then e.value else "None"
  }

  /** `upload_photo_scan_images`: the id and file counts must match and there may be at
      most ten files; then each file is checked and stored in turn. */
  function UploadImages(noteId: string, pageIds: seq<string>, images: seq<ImageFile>, userId: Option<string>,
                        store: Store): (r: (Reply<UploadedBody>, nat))
    ensures |pageIds| != |images| ==>
      r == (HttpError(400, "ページID数(" + NatToString(|pageIds|) + ")と画像数(" + NatToString(|images|) + ")が一致しません"), 0)
    ensures |pageIds| == |images| && |images| > MaxPages ==> r == (HttpError(400, "画像は最大10枚まで保存できます"), 0)
  {
    if |pageIds| != |images| then
      (HttpError(400, "ページID数(" + NatToString(|pageIds|) + ")と画像数(" + NatToString(|images|) + ")が一致しません"), 0)
    else if |images| > MaxPages then (HttpError(400, "画像は最大10枚まで保存できます"), 0)
    else UploadFrom(noteId, pageIds, images, userId, store, 0, [])
  }

  /** `upload_photo_scan_images` with its loop; `calls` is the number of files handed to
      storage. */
  method UploadPhotoScanImages(noteId: string, pageIds: seq<string>, images: seq<ImageFile>, userId: Option<string>,
                               store: Store) returns (r: Reply<UploadedBody>, calls: nat)
    ensures (r, calls) == UploadImages(noteId, pageIds, images, userId, store)
  {
    if |pageIds| != |images| {
      return HttpError(400, "ページID数(" + NatToString(|pageIds|) + ")と画像数(" + NatToString(|images|) + ")が一致しません"), 0;
    }
    if |images| > MaxPages {
      return HttpError(400, "画像は最大10枚まで保存できます"), 0;
    }
    var results: seq<UploadEntry> := [];
    var i := 0;
    while i < |images|
      invariant i <= |images|
      invariant UploadFrom(noteId, pageIds, images, userId, store, i, results) == UploadImages(noteId, pageIds, images, userId, store)
      decreases |images| - i
    {
      var file := images[i];
      if file.contentType.None? {
        return Crashed(UploadCrash), i;
      }
      if !StartsWith(file.contentType.value, "image/") {
        return HttpError(400, "ページ" + NatToString(i + 1) + ": 無効なファイル形式 " + file.contentType.value), i;
      }
      var stored := store(noteId, pageIds[i], file.data, userId);
      if stored.Failure? {
        return Crashed(UploadCrash), i + 1;
      }
      var res := stored.value;
      if res.status == Some("error") {
        return HttpError(500, "ページ" + NatToString(i + 1) + "の画像保存に失敗: " + ErrorText(res.error)), i + 1;
      }
      results := results + [UploadEntry(pageIds[i], i + 1, "success", res.filePath, res.localUrl, res.gcsUrl)];
      i := i + 1;
    }
    r := Ok(UploadedBody(noteId, |results|, results, NatToString(|results|) + "ページの画像保存が完了しました"));
    calls := i;
  }

  /** Every file is an image and every storage call succeeds. */
  predicate AllStored(noteId: string, pageIds: seq<string>, images: seq<ImageFile>, userId: Option<string>,
                      store: Store, n: nat)
    requires |pageIds| == |images| && n <= |images|
  {
    forall k :: 0 <= k < n ==>
      images[k].contentType.Some? && StartsWith(images[k].contentType.value, "image/")
      && Stored(store(noteId, pageIds[k], images[k].data, userId))
  }

  /** The loop runs over the files in order: while files are images and stored, one
      entry per file, numbered from 1; the first file that fails stops it, after the
      files before it were stored. */
  lemma {:induction false} UploadFromSpec(noteId: string, pageIds: seq<string>, images: seq<ImageFile>,
                                          userId: Option<string>, store: Store, i: nat, done: seq<UploadEntry>)
    requires |pageIds| == |images| && i <= |images| && |done| == i
    requires AllStored(noteId, pageIds, images, userId, store, i)
    requires forall k :: 0 <= k < i ==> done[k].pageId == pageIds[k] && done[k].pageNumber == k + 1
    ensures var (r, calls) := UploadFrom(noteId, pageIds, images, userId, store, i, done);
      && (r.Ok? || (r.HttpError? && r.status == 400) ==> AllStored(noteId, pageIds, images, userId, store, calls))
      && (calls > 0 ==> AllStored(noteId, pageIds, images, userId, store, calls - 1))
      && (r.Ok? <==> AllStored(noteId, pageIds, images, userId, store, |images|))
      && (r.Ok? ==>
            && calls == |images|
            && r.body.totalPages == |images| && |r.body.uploaded| == |images|
            && forall k :: 0 <= k < |images| ==>
                 r.body.uploaded[k].pageId == pageIds[k] && r.body.uploaded[k].pageNumber == k + 1)
    decreases |images| - i
  {
    if i < |images| {
      var file := images[i];
      if file.contentType.Some? && StartsWith(file.contentType.value, "image/") {
        var res := store(noteId, pageIds[i], file.data, userId);
        if Stored(res) {
          UploadFromSpec(noteId, pageIds, images, userId, store, i + 1, done + [EntryFor(pageIds[i], i, res.value)]);
        }
      }
    }
  }

  /** For a request within the limits: every file stored before the reply, and on
      success one entry per file, numbered from 1 in the order sent. */
  lemma UploadNumbering(noteId: string, pageIds: seq<string>, images: seq<ImageFile>, userId: Option<string>,
                        store: Store)
    requires |pageIds| == |images| <= MaxPages
    ensures var (r, calls) := UploadImages(noteId, pageIds, images, userId, store);
      && (r.Ok? <==> AllStored(noteId, pageIds, images, userId, store, |images|))
      && (r.Ok? ==>
            && calls == |images| && |r.body.uploaded| == |images|
            && forall k :: 0 <= k < |images| ==>
                 r.body.uploaded[k].pageId == pageIds[k] && r.body.uploaded[k].pageNumber == k + 1)
      && (r.HttpError? && r.status == 400 ==> AllStored(noteId, pageIds, images, userId, store, calls))
  {
    UploadFromSpec(noteId, pageIds, images, userId, store, 0, []);
  }

  // ---------------------------------------------------------------------------------
  // upload-image-base64

  /** The JSON body of the base64 upload. */
  datatype Payload = Payload(noteId: string, pageId: string, imageBase64: string)

  /** The parameters used: the payload's when a payload is sent, else the query's; None
      when one of them is missing or empty. */
  function ResolveParams(payload: Option<Payload>, noteId: Option<string>, pageId: Option<string>,
                         imageBase64: Option<string>): (r: Option<Payload>)
    ensures payload.Some? ==>
      r == (if payload.value.noteId != "" && payload.value.pageId != "" && payload.value.imageBase64 != ""
            then payload else None)
    ensures payload.None? && r.Some? ==>
      noteId == Some(r.value.noteId) && pageId == Some(r.value.pageId) && imageBase64 == Some(r.value.imageBase64)
    ensures payload.None? ==>
      (r.None? <==> noteId.None? || noteId.value == "" || pageId.None? || pageId.value == ""
                    || imageBase64.None? || imageBase64.value == "")
  {
    var p := if payload.Some? then payload.value
             else Payload(if noteId.Some? then noteId.value else "", if pageId.Some? then pageId.value else "",
                          if imageBase64.Some? then imageBase64.value else "");
    if p.noteId != "" && p.pageId != "" && p.imageBase64 != "" then Some(p) else None
  }

  datatype StoredBody = StoredBody(noteId: string, pageId: string, filePath: Option<string>, localUrl: Option<string>,
                                   gcsUrl: Option<string>, message: string)

  /** `upload_photo_scan_image_base64`: missing parameters are 422, an image that does
      not decode is 400, a storage answer with status "error" is 500, and a storage call
      that raises is the generic 500. */
  function UploadImageBase64(payload: Option<Payload>, noteId: Option<string>, pageId: Option<string>,
                             imageBase64: Option<string>, userId: Option<string>, b64: Decoder, store: Store)
    : (r: Reply<StoredBody>)
    ensures ResolveParams(payload, noteId, pageId, imageBase64).None? ==>
      r == HttpError(422, "note_id, page_id, image_base64 は必須です")
    ensures var p := ResolveParams(payload, noteId, pageId, imageBase64);
      p.Some? && DecodeImage(p.value.imageBase64, b64).Failure? ==>
        r == HttpError(400, DecodeErrorPrefix + DecodeImage(p.value.imageBase64, b64).error)
    ensures var p := ResolveParams(payload, noteId, pageId, imageBase64);
      p.Some? && DecodeImage(p.value.imageBase64, b64).Success?
      && store(p.value.noteId, p.value.pageId, DecodeImage(p.value.imageBase64, b64).value, userId).Failure? ==>
        r == Crashed(UploadCrash)
    ensures r.Ok? ==>
      var p := ResolveParams(payload, noteId, pageId, imageBase64).value;
      var data := DecodeImage(p.imageBase64, b64).value;
      && Stored(store(p.noteId, p.pageId, data, userId))
      && r.body.noteId == p.noteId && r.body.pageId == p.pageId
  {
    match ResolveParams(payload, noteId, pageId, imageBase64)
    case None => HttpError(422, "note_id, page_id, image_base64 は必須です")
    case Some(p) =>
      match DecodeImage(p.imageBase64, b64)
      case Failure(e) => HttpError(400, DecodeErrorPrefix + e)
      case Success(data) =>
        match store(p.noteId, p.pageId, data, userId)
        case Failure(_) => Crashed(UploadCrash)
        case Success(res) =>
          if res.status == Some("error") then HttpError(500, "画像保存に失敗: " + ErrorText(res.error))
          else Ok(StoredBody(p.noteId, p.pageId, res.filePath, res.localUrl, res.gcsUrl, "画像保存が完了しました"))
  }

  /** A payload overrides the query parameters. */
  lemma PayloadWins(p: Payload, noteId: Option<string>, pageId: Option<string>, imageBase64: Option<string>)
    requires p.noteId != "" && p.pageId != "" && p.imageBase64 != ""
    ensures ResolveParams(Some(p), noteId, pageId, imageBase64) == Some(p)
    ensures ResolveParams(Some(p), noteId, pageId, imageBase64) == ResolveParams(Some(p), None, None, None)
  {
  }

  /** On the local provider no upload of a file succeeds: a non-empty request that gets
      past the checks of its first file ends in the generic 500 at the first storage
      call, and only a request with no files is answered 200. */
  lemma LocalUploadsFail(noteId: string, pageIds: seq<string>, images: seq<ImageFile>, userId: Option<string>, gcs: Store)
    ensures var (r, calls) := UploadImages(noteId, pageIds, images, userId, StoreOn(LocalKind, gcs));
      && (r.Ok? ==> images == [] && pageIds == [])
      && ((|pageIds| == |images| && 0 < |images| <= MaxPages && images[0].contentType.Some?
           && StartsWith(images[0].contentType.value, "image/")) ==> r == Crashed(UploadCrash) && calls == 1)
  {
    var store := StoreOn(LocalKind, gcs);
    if |pageIds| == |images| && 0 < |images| <= MaxPages {
      assert !Stored(store(noteId, pageIds[0], images[0].data, userId));
    }
  }

  /** On the local provider a base64 upload never succeeds: one whose parameters resolve
      and whose image decodes ends in the generic 500. */
  lemma LocalBase64UploadFails(payload: Option<Payload>, noteId: Option<string>, pageId: Option<string>,
                               imageBase64: Option<string>, userId: Option<string>, b64: Decoder, gcs: Store)
    ensures var r := UploadImageBase64(payload, noteId, pageId, imageBase64, userId, b64, StoreOn(LocalKind, gcs));
      && !r.Ok?
      && (var p := ResolveParams(payload, noteId, pageId, imageBase64);
          p.Some? && DecodeImage(p.value.imageBase64, b64).Success? ==> r == Crashed(UploadCrash))
  {
  }

  // ---------------------------------------------------------------------------------
  // Image URL and deletion

  /** What `get_photo_scan_image_url` can raise. */
  datatype UrlFailure = NotFound | UrlError(message: string)

  datatype UrlBody = UrlBody(noteId: string, pageId: string, imageUrl: string, expiresIn: int)

  /** `get_photo_scan_image_url`: a missing image is 404 naming it. */
  function ImageUrl(noteId: string, pageId: string, expiresIn: int, url: Result<string, UrlFailure>)
    : (r: Reply<UrlBody>)
    ensures url == Failure(NotFound) ==> r == HttpError(404, "画像が見つかりません: " + noteId + "/" + pageId)
    ensures url.Success? ==> r == Ok(UrlBody(noteId, pageId, url.value, expiresIn))
    ensures url.Failure? && url.error.UrlError? ==>
      r == HttpError(500, "画像URL取得でエラーが発生しました: " + url.error.message)
  {
    match url
    case Success(u) => Ok(UrlBody(noteId, pageId, u, expiresIn))
    case Failure(NotFound) => HttpError(404, "画像が見つかりません: " + noteId + "/" + pageId)
    case Failure(UrlError(m)) => HttpError(500, "画像URL取得でエラーが発生しました: " + m)
  }

  /** `get_photo_scan_image_url` on a provider of `kind`, the Cloud Storage one answering `gcs`. */
  function UrlOn(kind: StorageKind, gcs: Result<string, UrlFailure>): Result<string, UrlFailure> {
    if kind == GcsKind then gcs else Failure(UrlError(MissingMethod("get_photo_scan_image_url")))
  }

  /** On the local provider the image URL request is always the generic 500. */
  lemma LocalImageUrlFails(noteId: string, pageId: string, expiresIn: int, gcs: Result<string, UrlFailure>)
    ensures ImageUrl(noteId, pageId, expiresIn, UrlOn(LocalKind, gcs))
      == HttpError(500, "画像URL取得でエラーが発生しました: " + MissingMethod("get_photo_scan_image_url"))
  {
  }

  const DeleteFailed := "画像削除に失敗しました"
  const DeleteCrash := "画像削除でエラーが発生しました: "

  /** `delete_photo_scan_images`: the 500 raised for a failed deletion is itself caught by
      the generic handler and re-raised with its text, `"500: " + detail`, behind the
      handler's prefix. */
  function DeleteImages(noteId: string, outcome: Result<bool, string>): (r: Reply<string>)
    ensures outcome == Success(true) <==> r.Ok?
    ensures outcome == Success(false) ==> r == HttpError(500, DeleteCrash + "500: " + DeleteFailed)
    ensures outcome.Failure? ==> r == HttpError(500, DeleteCrash + outcome.error)
  {
    match outcome
    case Success(true) => Ok(noteId)
    case Success(false) => HttpError(500, DeleteCrash + "500: " + DeleteFailed)
    case Failure(e) => HttpError(500, DeleteCrash + e)
  }

  /** `delete_photo_scan_images` on a provider of `kind`, the Cloud Storage one answering `gcs`. */
  function DeleteOn(kind: StorageKind, gcs: Result<bool, string>): Result<bool, string> {
    if kind == GcsKind then gcs else Failure(MissingMethod("delete_photo_scan_images"))
  }

  /** On the local provider deleting the images is always the generic 500. */
  lemma LocalDeleteFails(noteId: string, gcs: Result<bool, string>)
    ensures DeleteImages(noteId, DeleteOn(LocalKind, gcs)) == HttpError(500, DeleteCrash + MissingMethod("delete_photo_scan_images"))
  {
  }
}
