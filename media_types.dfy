/**
 * The shared upload rules: the accepted MIME types and extensions, the size limits
 * and the three file schemas the upload form and the server agree on.
 */
module MediaTypes {
  import opened Wrappers
  import opened Strings

  const ACCEPTED_IMAGE_TYPES: seq<string> := ["image/jpeg", "image/heif", "image/heic"]
  const ACCEPTED_VIDEO_TYPES: seq<string> := ["video/mp4", "video/mov", "video/quicktime"]
  const ACCEPTED_MIME_TYPES: seq<string> := ACCEPTED_IMAGE_TYPES + ACCEPTED_VIDEO_TYPES

  const ACCEPTED_IMAGE_EXTENSIONS: seq<string> := [".jpeg", ".jpg", ".heic"]
  const ACCEPTED_VIDEO_EXTENSIONS: seq<string> := [".mp4", ".mov"]
  const ACCEPTED_FILE_EXTENSIONS: seq<string> := ACCEPTED_IMAGE_EXTENSIONS + ACCEPTED_VIDEO_EXTENSIONS

  /** The `accept` attribute of the file input: MIME types, then extensions. */
  const ACCEPTED_FILE_TYPES: string := Join(ACCEPTED_MIME_TYPES + ACCEPTED_FILE_EXTENSIONS, ",")

  const MAX_VIDEO_SIZE_MB: nat := 100
  const MAX_VIDEO_SIZE_BYTES: nat := MAX_VIDEO_SIZE_MB * 1024 * 1024
  const MAX_IMAGE_SIZE_MB: nat := 10
  const MAX_IMAGE_SIZE_BYTES: nat := MAX_IMAGE_SIZE_MB * 1024 * 1024
  const MAX_FILES: nat := 500

  /** What the schemas look at in a `File`: its size in bytes and its MIME type. */
  datatype FileInfo = FileInfo(size: nat, mime: string)

  const IMAGE_SIZE_MESSAGE: string := "Maximální velikost obrázku je " + DecimalString(MAX_IMAGE_SIZE_MB) + " MB"
  const IMAGE_TYPE_MESSAGE: string := "Tento typ obrázku není podporován. Podporované typy jsou " + Join(ACCEPTED_IMAGE_EXTENSIONS, ", ") + "."
  const VIDEO_SIZE_MESSAGE: string := "Maximální velikost videa je " + DecimalString(MAX_VIDEO_SIZE_MB) + " MB"
  const VIDEO_TYPE_MESSAGE: string := "Tento typ videa není podporován. Podporované typy jsou " + Join(ACCEPTED_VIDEO_EXTENSIONS, ", ") + "."

  /** A file check with a size limit and a MIME list; every failing check adds its message. */
  function CheckFile(f: FileInfo, maxSize: nat, types: seq<string>, sizeMessage: string, typeMessage: string)
    : (r: Result<FileInfo, seq<string>>)
    ensures r.Ok? <==> f.size <= maxSize && f.mime in types
    ensures r.Ok? ==> r.value == f
    ensures r.Err? ==> (sizeMessage in r.error <== f.size > maxSize) && (typeMessage in r.error <== f.mime !in types)
    ensures r.Err? ==> forall m :: m in r.error ==> m == sizeMessage || m == typeMessage
  {
    var issues := (if f.size <= maxSize then [] else [sizeMessage]) + (if f.mime in types then [] else [typeMessage]);
    if issues == [] then Ok(f) else Err(issues)
  }

  /** ImageSchema: at most the image limit, bytes inclusive, and an accepted image type. */
  function ImageSchema(f: FileInfo): (r: Result<FileInfo, seq<string>>)
    ensures r.Ok? <==> f.size <= MAX_IMAGE_SIZE_BYTES && f.mime in ACCEPTED_IMAGE_TYPES
  {
    CheckFile(f, MAX_IMAGE_SIZE_BYTES, ACCEPTED_IMAGE_TYPES, IMAGE_SIZE_MESSAGE, IMAGE_TYPE_MESSAGE)
  }

  /** VideoSchema: at most the video limit and an accepted video type. */
  function VideoSchema(f: FileInfo): (r: Result<FileInfo, seq<string>>)
    ensures r.Ok? <==> f.size <= MAX_VIDEO_SIZE_BYTES && f.mime in ACCEPTED_VIDEO_TYPES
  {
    CheckFile(f, MAX_VIDEO_SIZE_BYTES, ACCEPTED_VIDEO_TYPES, VIDEO_SIZE_MESSAGE, VIDEO_TYPE_MESSAGE)
  }

  /** FileSchema, the union: the first schema that accepts wins; otherwise both issue lists. */
  function FileSchema(f: FileInfo): (r: Result<FileInfo, seq<seq<string>>>)
    ensures r.Ok? <==> ImageSchema(f).Ok? || VideoSchema(f).Ok?
    ensures r.Ok? ==> r.value == f
    ensures r.Err? ==> r.error == [ImageSchema(f).error, VideoSchema(f).error]
  {
    var image := ImageSchema(f);
    if image.Ok? then Ok(image.value)
    else
      var video := VideoSchema(f);
      if video.Ok? then Ok(video.value) else Err([image.error, video.error])
  }

  /**
   * The two lists partition the accepted MIME types: the image types come first and all
   * start with "image/", the video types follow and all start with "video/".
   */
  lemma AcceptedTypesPartition()
    ensures |ACCEPTED_MIME_TYPES| == 6
    ensures ACCEPTED_MIME_TYPES[..3] == ACCEPTED_IMAGE_TYPES && ACCEPTED_MIME_TYPES[3..] == ACCEPTED_VIDEO_TYPES
    ensures forall m :: m in ACCEPTED_IMAGE_TYPES ==> StartsWith(m, "image/")
    ensures forall m :: m in ACCEPTED_VIDEO_TYPES ==> StartsWith(m, "video/")
    ensures forall m :: m in ACCEPTED_MIME_TYPES <==> m in ACCEPTED_IMAGE_TYPES || m in ACCEPTED_VIDEO_TYPES
  {
    assert StartsWith("image/jpeg", "image/") && StartsWith("image/heif", "image/") && StartsWith("image/heic", "image/");
    assert StartsWith("video/mp4", "video/") && StartsWith("video/mov", "video/") && StartsWith("video/quicktime", "video/");
  }

  /** The limits in bytes: 100 MiB for video, 10 MiB for images. */
  lemma SizeLimits()
    ensures MAX_VIDEO_SIZE_BYTES == 104857600 && MAX_IMAGE_SIZE_BYTES == 10485760
    ensures MAX_IMAGE_SIZE_BYTES < MAX_VIDEO_SIZE_BYTES
  {
  }

  /** The `accept` string is the MIME list's text, a comma, then the extension list's text. */
  lemma AcceptedFileTypesText()
    ensures ACCEPTED_FILE_TYPES == Join(ACCEPTED_MIME_TYPES, ",") + "," + Join(ACCEPTED_FILE_EXTENSIONS, ",")
    ensures StartsWith(ACCEPTED_FILE_TYPES, "image/jpeg,")
  {
    JoinConcat(ACCEPTED_MIME_TYPES, ACCEPTED_FILE_EXTENSIONS, ",");
    JoinConcat(ACCEPTED_MIME_TYPES[..1], ACCEPTED_MIME_TYPES[1..] + ACCEPTED_FILE_EXTENSIONS, ",");
    assert ACCEPTED_MIME_TYPES[..1] + (ACCEPTED_MIME_TYPES[1..] + ACCEPTED_FILE_EXTENSIONS) == ACCEPTED_MIME_TYPES + ACCEPTED_FILE_EXTENSIONS;
    var rest := Join(ACCEPTED_MIME_TYPES[1..] + ACCEPTED_FILE_EXTENSIONS, ",");
    assert ACCEPTED_FILE_TYPES == "image/jpeg" + "," + rest;
    assert ("image/jpeg" + "," + rest)[..11] == "image/jpeg,";
  }

  /** A file FileSchema accepts has an accepted MIME type and is within the limit of its kind. */
  lemma FileSchemaAcceptsOnlyAcceptedTypes(f: FileInfo)
    requires FileSchema(f).Ok?
    ensures f.mime in ACCEPTED_MIME_TYPES
    ensures StartsWith(f.mime, "image/") ==> f.size <= MAX_IMAGE_SIZE_BYTES
    ensures f.size <= MAX_VIDEO_SIZE_BYTES
  {
    AcceptedTypesPartition();
  }

  /** Joining two non-empty lists joins their texts with one more separator. */
  lemma {:induction false} JoinConcat(a: seq<string>, b: seq<string>, sep: string)
    requires a != [] && b != []
    ensures Join(a + b, sep) == Join(a, sep) + sep + Join(b, sep)
    decreases |a|
  {
    if |a| == 1 {
      assert (a + b)[1..] == b;
    } else {
      assert (a + b)[1..] == a[1..] + b;
      JoinConcat(a[1..], b, sep);
    }
  }
}
