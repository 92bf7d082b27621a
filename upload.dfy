/**
 * POST /api/upload: collect the multipart parts, check the MIME type and the size,
 * and store the file under `<id>.jpeg`. Errors are HTTP errors; a storage failure
 * that is not already one becomes a 500.
 */
module Upload {
  import opened Wrappers
  import opened Strings
  import opened Effects
  import opened MediaTypes

  /**
   * A multipart part: its field name, the file name and content type when sent, the
   * bytes, and `text`, the bytes decoded as UTF-8 (`data.toString()`).
   */
  datatype Part = Part(name: string, filename: Option<string>, mime: Option<string>, data: Bytes, text: string)

  /** The fields the parts fill in; each stays `undefined` until a part sets it. */
  datatype UploadData = UploadData(file: Option<Bytes>, fileName: Option<string>, fileSize: Option<nat>,
                                   mimeType: Option<string>, id: Option<string>)

  /** The index of the last part with this name. */
  function LastNamed(parts: seq<Part>, name: string): (r: Option<nat>)
    ensures r.None? <==> forall k :: 0 <= k < |parts| ==> parts[k].name != name
    ensures r.Some? ==> r.value < |parts| && parts[r.value].name == name
    ensures r.Some? ==> forall k :: r.value < k < |parts| ==> parts[k].name != name
  {
    if parts == [] then None
    else if parts[|parts| - 1].name == name then Some(|parts| - 1)
    else LastNamed(parts[..|parts| - 1], name)
  }

  /** What the parts leave behind: the fields of the last "file" part and the text of the last "id" part. */
  function Accumulated(parts: seq<Part>): UploadData {
    var f := LastNamed(parts, "file");
    var i := LastNamed(parts, "id");
    UploadData(if f.Some? then Some(parts[f.value].data) else None,
               if f.Some? then parts[f.value].filename else None,
               if f.Some? then Some(|parts[f.value].data|) else None,
               if f.Some? then parts[f.value].mime else None,
               if i.Some? then Some(parts[i.value].text) else None)
  }

  /** The part loop; parts of other names are only logged. */
  method AccumulateParts(parts: seq<Part>) returns (u: UploadData)
    ensures u == Accumulated(parts)
  {
    u := UploadData(None, None, None, None, None);
    var i := 0;
    while i < |parts|
      invariant 0 <= i <= |parts|
      invariant u == Accumulated(parts[..i])
    {
      var part := parts[i];
      assert parts[..i + 1][..i] == parts[..i];
      assert parts[..i + 1][i] == part;
      if part.name == "file" {
        u := u.(file := Some(part.data), fileName := part.filename, fileSize := Some(|part.data|), mimeType := part.mime);
      } else if part.name == "id" {
        u := u.(id := Some(part.text));
      }
      i := i + 1;
    }
    assert parts[..i] == parts;
  }

  /**
   * A later part of the same name overrides the earlier one's fields; a part of any
   * other name changes nothing.
   */
  lemma LastPartWins(parts: seq<Part>, p: Part)
    ensures p.name == "file" ==> var u := Accumulated(parts + [p]);
      u.file == Some(p.data) && u.fileName == p.filename && u.fileSize == Some(|p.data|) && u.mimeType == p.mime
      && u.id == Accumulated(parts).id
    ensures p.name == "id" ==> Accumulated(parts + [p]) == Accumulated(parts).(id := Some(p.text))
    ensures p.name != "file" && p.name != "id" ==> Accumulated(parts + [p]) == Accumulated(parts)
  {
    assert (parts + [p])[..|parts|] == parts;
  }

  /** `${mimeType || "unknown"}` */
  function MimeText(m: Option<string>): (t: string)
    ensures m.Some? && m.value != "" ==> t == m.value
    ensures m.None? || m.value == "" ==> t == "unknown"
  {
    if m.Some? && m.value != "" then m.value else "unknown"
  }

  /** A template literal of an optional string: the string, or "undefined". */
  function TemplateText(o: Option<string>): (t: string)
    ensures o.Some? ==> t == o.value
    ensures o.None? ==> t == "undefined"
  {
    if o.Some? then o.value else "undefined"
  }

  /** The server's size rule: a non-zero size above the limit of an `image…` or `video…` type. */
  predicate ExceedsServerLimit(mime: string, size: Option<nat>) {
    && size.Some? && size.value != 0
    && ((StartsWith(mime, "image") && size.value > MAX_IMAGE_SIZE_BYTES)
        || (StartsWith(mime, "video") && size.value > MAX_VIDEO_SIZE_BYTES))
  }

  function TypeMessage(mime: Option<string>): string {
    "File type " + MimeText(mime) + " not allowed. Allowed types: " + Join(ACCEPTED_MIME_TYPES, ", ")
  }

  /** The size message names the image limit in bytes, whatever the kind of the file. */
  function SizeMessage(fileName: Option<string>): string {
    "File " + TemplateText(fileName) + " exceeds maximum size of " + DecimalString(MAX_IMAGE_SIZE_BYTES) + " MB"
  }

  /** The type check, then the size check. */
  function Validate(u: UploadData): (r: Outcome<Thrown>)
    ensures r.Pass? <==> u.mimeType.Some? && u.mimeType.value in ACCEPTED_MIME_TYPES && !ExceedsServerLimit(u.mimeType.value, u.fileSize)
    ensures u.mimeType.None? || u.mimeType.value !in ACCEPTED_MIME_TYPES ==> r == Fail(HttpError(400, TypeMessage(u.mimeType)))
    ensures u.mimeType.Some? && u.mimeType.value in ACCEPTED_MIME_TYPES && ExceedsServerLimit(u.mimeType.value, u.fileSize) ==>
      r == Fail(HttpError(400, SizeMessage(u.fileName)))
  {
    if u.mimeType.None? || u.mimeType.value == "" || u.mimeType.value !in ACCEPTED_MIME_TYPES then
      Fail(HttpError(400, TypeMessage(u.mimeType)))
    else if ExceedsServerLimit(u.mimeType.value, u.fileSize) then
      Fail(HttpError(400, SizeMessage(u.fileName)))
    else Pass
  }

  /** The storage key: the id followed by ".jpeg", whatever the file's type. */
  function StorageKey(id: Option<string>): (key: string)
    ensures EndsWith(key, ".jpeg")
    ensures id.Some? ==> StartsWith(key, id.value) && |key| == |id.value| + 5
    ensures id.Some? ==> key == id.value + ".jpeg"
    ensures id.None? ==> key == "undefined.jpeg"
  {
    var key := TemplateText(id) + ".jpeg";
    assert key[|key| - 5..] == ".jpeg";
    key
  }

  /**
   * Distinct ids get distinct keys, but an upload without an id shares its key with the
   * id "undefined", and a re-upload under the same id overwrites the earlier blob.
   */
  lemma StorageKeyCollisions(a: string, b: string)
    ensures StorageKey(Some(a)) == StorageKey(Some(b)) ==> a == b
    ensures StorageKey(None) == StorageKey(Some("undefined"))
  {
    if StorageKey(Some(a)) == StorageKey(Some(b)) {
      assert a == StorageKey(Some(a))[..|a|];
    }
  }

  /** The `catch`: HTTP errors pass unchanged, everything else becomes a 500. */
  function StoreError(e: Thrown): (r: Thrown)
    ensures r.HttpError?
    ensures r == e <==> e.HttpError?
    ensures !e.HttpError? ==> r == HttpError(500, "Error uploading files")
  {
    if e.HttpError? then e else HttpError(500, "Error uploading files")
  }

  /**
   * The handler. `parts` is what the multipart reader returns and `putFailure` what the
   * blob store raises, if anything. A request that passes validation always has file
   * data, so the "No file data" error is never raised.
   */
  method HandleUpload(store: BlobStore, parts: Option<seq<Part>>, putFailure: Outcome<Thrown>) returns (r: Outcome<Thrown>)
    modifies store
    ensures parts.None? || parts.value == [] ==> r == Fail(HttpError(400, "No files uploaded")) && store.blobs == old(store.blobs)
    ensures parts.Some? && parts.value != [] ==> var u := Accumulated(parts.value);
      && (Validate(u).Fail? ==> r == Validate(u) && store.blobs == old(store.blobs))
      && (Validate(u).Pass? ==>
           && u.file.Some?
           && store.blobs == (if putFailure.Pass? then old(store.blobs)[StorageKey(u.id) := u.file.value] else old(store.blobs))
           && r == (if putFailure.Pass? then Pass else Fail(StoreError(putFailure.error))))
  {
    if parts.None? || |parts.value| == 0 {
      return Fail(HttpError(400, "No files uploaded"));
    }
    var uploadData := AccumulateParts(parts.value);
    r := Validate(uploadData);
    if r.Fail? {
      return;
    }
    if uploadData.file.None? {
      r := Fail(StoreError(HttpError(400, "No file data")));
      return;
    }
    var put := store.Put(StorageKey(uploadData.id), uploadData.file.value, putFailure);
    if put.Fail? {
      r := Fail(StoreError(put.error));
    }
  }

  /** An empty or unreported size never fails the size check. */
  lemma EmptyFilePassesSizeCheck(u: UploadData)
    requires u.mimeType.Some? && u.mimeType.value in ACCEPTED_MIME_TYPES
    requires u.fileSize.None? || u.fileSize == Some(0)
    ensures Validate(u).Pass?
  {
  }

  /** A file the shared FileSchema accepts, sent as the only "file" part, passes the server's checks. */
  lemma SchemaAcceptedFileIsAccepted(f: FileInfo, p: Part)
    requires FileSchema(f).Ok?
    requires p.name == "file" && p.mime == Some(f.mime) && |p.data| == f.size
    ensures Validate(Accumulated([p])).Pass?
  {
    FileSchemaAcceptsOnlyAcceptedTypes(f);
    AcceptedTypesPartition();
  }
}
