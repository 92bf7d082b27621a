/**
 * The upload form's client-side size check. Its limits are the form's own constants,
 * which are not the server's: 10 MiB for video and 100 MiB for everything else.
 */
module UploadValidators {
  import opened Strings
  import MediaTypes

  const MAX_VIDEO_SIZE: nat := 1024 * 1024 * 10
  const MAX_IMAGE_SIZE: nat := 1024 * 1024 * 100

  /** The limit a file of this type is held to: the video limit for `video/…`, else the image limit. */
  function LimitFor(mime: string): (limit: nat)
    ensures StartsWith(mime, "video/") ==> limit == MAX_VIDEO_SIZE
    ensures !StartsWith(mime, "video/") ==> limit == MAX_IMAGE_SIZE
  {
    if StartsWith(mime, "video/") then MAX_VIDEO_SIZE else MAX_IMAGE_SIZE
  }

  /**
   * fileIsTooBig: strictly above the limit of the file's kind; it reads only type and
   * size. Nothing up to the video limit is too big and everything above the image limit is.
   */
  function FileIsTooBig(mime: string, size: nat): (tooBig: bool)
    ensures tooBig <==> size > LimitFor(mime)
    ensures StartsWith(mime, "video/") ==> (tooBig <==> size > MAX_VIDEO_SIZE)
    ensures !StartsWith(mime, "video/") ==> (tooBig <==> size > MAX_IMAGE_SIZE)
    ensures size <= MAX_VIDEO_SIZE ==> !tooBig
    ensures size > MAX_IMAGE_SIZE ==> tooBig
  {
    size > LimitFor(mime)
  }

  /** The comparison is strict: a file exactly at its limit passes, one byte more does not. */
  lemma LimitIsInclusive(mime: string)
    ensures !FileIsTooBig(mime, LimitFor(mime)) && FileIsTooBig(mime, LimitFor(mime) + 1)
  {
  }

  /** A type without the `video/` prefix (the empty type, `image/…`, `videos`) uses the larger image limit. */
  lemma OtherTypesUseImageLimit(mime: string, size: nat)
    requires !StartsWith(mime, "video/")
    ensures FileIsTooBig(mime, size) <==> size > MAX_IMAGE_SIZE
    ensures MAX_IMAGE_SIZE > MAX_VIDEO_SIZE
  {
  }

  /**
   * The client limits are the server's swapped: a 50 MiB MP4 is refused by the form
   * although the server's VideoSchema accepts it, and a 50 MiB JPEG passes the form
   * although ImageSchema refuses it.
   */
  lemma ClientAndServerLimitsDisagree()
    ensures var video := MediaTypes.FileInfo(50 * 1024 * 1024, "video/mp4");
      FileIsTooBig(video.mime, video.size) && MediaTypes.VideoSchema(video).Ok?
    ensures var image := MediaTypes.FileInfo(50 * 1024 * 1024, "image/jpeg");
      !FileIsTooBig(image.mime, image.size) && MediaTypes.ImageSchema(image).Err?
  {
    assert StartsWith("video/mp4", "video/");
    assert !StartsWith("image/jpeg", "video/") by {
      assert "image/jpeg"[0] != "video/"[0];
    }
  }
}
