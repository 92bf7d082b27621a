/**
 * HEIC handling in the upload form: which files count as HEIC, and how the result of
 * the converter becomes the JPEG blob or the "Conversion failed" error.
 */
module Heic {
  import opened Wrappers
  import opened Strings
  import opened Effects

  const CONVERSION_FAILED: string := "Conversion failed"

  /** isHeic: the type is exactly `image/heif`, or the name ends with `.heic` (case-sensitive). */
  function IsHeic(mime: string, name: string): (r: bool)
    ensures r <==> mime == "image/heif" || EndsWith(name, ".heic")
  {
    mime == "image/heif" || EndsWith(name, ".heic")
  }

  /** A `.heic` name counts whatever the type; `image/heic` alone or an upper-case suffix does not. */
  lemma HeicExamples(mime: string, stem: string)
    ensures IsHeic(mime, stem + ".heic")
    ensures !IsHeic("image/heic", "photo.HEIC")
    ensures IsHeic("image/heif", "photo.jpg")
  {
    assert (stem + ".heic")[|stem + ".heic"| - 5..] == ".heic";
    assert "photo.HEIC"[6] != ".heic"[1];
  }

  /** What the converter resolves with: one blob, or an array of blobs. */
  datatype Converted = OneBlob(blob: Bytes) | Blobs(blobs: seq<Bytes>)

  /**
   * convertHeicToJpeg: the blob, or the first of the array; a rejected conversion is
   * logged and, like an empty array, ends in "Conversion failed".
   */
  function ConvertHeicToJpeg(converted: Result<Converted, Thrown>): (r: Result<Bytes, Thrown>)
    ensures r.Ok? <==> converted.Ok? && (converted.value.OneBlob? || |converted.value.blobs| > 0)
    ensures r.Ok? && converted.value.OneBlob? ==> r.value == converted.value.blob
    ensures r.Ok? && converted.value.Blobs? ==> r.value == converted.value.blobs[0]
    ensures r.Err? ==> r.error == ErrorObject(CONVERSION_FAILED)
  {
    var jpegBlob: Option<Bytes> :=
      match converted
      case Err(_) => None
      case Ok(OneBlob(b)) => Some(b)
      case Ok(Blobs(bs)) => if |bs| > 0 then Some(bs[0]) else None;
    if jpegBlob.None? then Err(ErrorObject(CONVERSION_FAILED)) else Ok(jpegBlob.value)
  }
}
