/**
 * The pure parts of video poster extraction: the metadata taken from a probe and the
 * assembly of the poster result; plus the two temporary-directory helpers the legacy
 * queue uses. The probe, the frame grab and the image encoder are parameters.
 */
module VideoVariants {
  import opened Wrappers
  import opened Effects

  const DEFAULT_WIDTH: int := 1920
  const DEFAULT_HEIGHT: int := 1080
  const LQIP_PREFIX: string := "data:image/jpeg;base64,"

  /** One stream of a probe: its `codec_type` and optional dimensions. */
  datatype Stream = Stream(codecType: Option<string>, width: Option<int>, height: Option<int>)

  /** What the probe reports: the streams and the container's optional duration in seconds. */
  datatype ProbeData = ProbeData(streams: seq<Stream>, duration: Option<real>)

  datatype VideoMetadata = VideoMetadata(width: int, height: int, duration: real)

  predicate IsVideo(s: Stream) {
    s.codecType == Some("video")
  }

  /** `streams.find(s => s.codec_type === "video")`, as an index. */
  function FirstVideoStream(streams: seq<Stream>): (r: Option<nat>)
    ensures r.None? <==> forall k :: 0 <= k < |streams| ==> !IsVideo(streams[k])
    ensures r.Some? ==> r.value < |streams| && IsVideo(streams[r.value])
    ensures r.Some? ==> forall k :: 0 <= k < r.value ==> !IsVideo(streams[k])
  {
    if streams == [] then None
    else if IsVideo(streams[0]) then Some(0)
    else
      var rest := FirstVideoStream(streams[1..]);
      if rest.Some? then Some(rest.value + 1) else None
  }

  /**
   * getVideoMetadata: a probe error is passed on; otherwise the first video stream
   * supplies width and height, each defaulting when the stream or the field is missing,
   * and the duration defaults to 0.
   */
  function GetVideoMetadata(probe: Result<ProbeData, Thrown>): (r: Result<VideoMetadata, Thrown>)
    ensures probe.Err? ==> r == Err(probe.error)
    ensures probe.Ok? ==> r.Ok?
    ensures probe.Ok? ==> var i := FirstVideoStream(probe.value.streams);
      && (i.None? ==> r.value.width == DEFAULT_WIDTH && r.value.height == DEFAULT_HEIGHT)
      && (i.Some? ==> r.value.width == probe.value.streams[i.value].width.GetOr(DEFAULT_WIDTH))
      && (i.Some? ==> r.value.height == probe.value.streams[i.value].height.GetOr(DEFAULT_HEIGHT))
    ensures probe.Ok? ==> r.value.duration == probe.value.duration.GetOr(0.0)
  {
    match probe
    case Err(e) => Err(e)
    case Ok(data) =>
      var i := FirstVideoStream(data.streams);
      var width := if i.Some? then data.streams[i.value].width.GetOr(DEFAULT_WIDTH) else DEFAULT_WIDTH;
      var height := if i.Some? then data.streams[i.value].height.GetOr(DEFAULT_HEIGHT) else DEFAULT_HEIGHT;
      Ok(VideoMetadata(width, height, data.duration.GetOr(0.0)))
  }

  /** A video stream that reports its dimensions decides them, whatever streams follow it. */
  lemma FirstVideoStreamDecides(before: seq<Stream>, s: Stream, after: seq<Stream>, duration: Option<real>)
    requires forall k :: 0 <= k < |before| ==> !IsVideo(before[k])
    requires IsVideo(s) && s.width.Some? && s.height.Some?
    ensures var r := GetVideoMetadata(Ok(ProbeData(before + [s] + after, duration)));
      r.Ok? && r.value.width == s.width.value && r.value.height == s.height.value
  {
    var streams := before + [s] + after;
    assert streams[|before|] == s;
    assert forall k :: 0 <= k < |before| ==> streams[k] == before[k];
  }

  const BASE64_ALPHABET: string := "ABCDEFGHIJKLMNOPQRSTUVWXYZabcdefghijklmnopqrstuvwxyz0123456789+/"

  function Base64Digit(v: int): (c: char)
    requires 0 <= v < 64
    ensures c in BASE64_ALPHABET
  {
    BASE64_ALPHABET[v]
  }

  /** The four characters encoding the first one to three bytes of `b`, padded with `=`. */
  function Base64Group(b: Bytes): (g: string)
    requires |b| > 0
    ensures |g| == 4
    ensures forall c :: c in g ==> c in BASE64_ALPHABET || c == '='
  {
    var b0 := b[0] as int;
    var b1 := if |b| > 1 then b[1] as int else 0;
    var b2 := if |b| > 2 then b[2] as int else 0;
    var c0 := Base64Digit(b0 / 4);
    var c1 := Base64Digit((b0 % 4) * 16 + b1 / 16);
    var c2 := if |b| > 1 then Base64Digit((b1 % 16) * 4 + b2 / 64) else '=';
    var c3 := if |b| > 2 then Base64Digit(b2 % 64) else '=';
    [c0, c1, c2, c3]
  }

  /** `toString("base64")`: the padded encoding of section 4 of RFC 4648. */
  function Base64(b: Bytes): (s: string)
    ensures |s| == 4 * Groups(|b|)
    ensures forall c :: c in s ==> c in BASE64_ALPHABET || c == '='
    decreases |b|
  {
    if |b| == 0 then ""
    else
      var used := if |b| < 3 then |b| else 3;
      var g, rest := Base64Group(b), Base64(b[used..]);
      Base64Length(|b|);
      assert forall c :: c in g + rest ==> c in g || c in rest;
      g + rest
  }

  /** The number of started groups of three bytes: `ceil(n / 3)`. */
  function Groups(n: nat): nat {
    (n + 2) / 3
  }

  /** One group of four characters per started group of three bytes. */
  lemma Base64Length(n: nat)
    requires n > 0
    ensures Groups(n) == 1 + Groups(if n < 3 then 0 else n - 3)
  {
  }

  /** The result of extractVideoPoster: the image variants, the inline preview, the metadata. */
  datatype VideoPosterResult = VideoPosterResult(posterFull: Bytes, posterThumb: Bytes, posterLqip: string,
                                                 width: int, height: int, duration: real)

  /** What the image encoder produces from the grabbed frame: full, thumbnail and preview bytes. */
  datatype PosterImages = PosterImages(full: Bytes, thumb: Bytes, lqip: Bytes)

  /**
   * extractVideoPoster: the probe runs first, then the frame grab, then the encoder;
   * the first failure is the result. The poster carries the probed metadata unchanged
   * and the preview as a JPEG data URI.
   */
  function ExtractVideoPoster(probe: Result<ProbeData, Thrown>, frame: Result<Bytes, Thrown>, images: Result<PosterImages, Thrown>)
    : (r: Result<VideoPosterResult, Thrown>)
    ensures r.Ok? <==> probe.Ok? && frame.Ok? && images.Ok?
    ensures probe.Err? ==> r == Err(probe.error)
    ensures probe.Ok? && frame.Err? ==> r == Err(frame.error)
    ensures probe.Ok? && frame.Ok? && images.Err? ==> r == Err(images.error)
    ensures r.Ok? ==> var m := GetVideoMetadata(probe).value;
      && r.value.width == m.width && r.value.height == m.height && r.value.duration == m.duration
      && r.value.posterFull == images.value.full && r.value.posterThumb == images.value.thumb
      && |r.value.posterLqip| >= |LQIP_PREFIX| && r.value.posterLqip[..|LQIP_PREFIX|] == LQIP_PREFIX
      && r.value.posterLqip[|LQIP_PREFIX|..] == Base64(images.value.lqip)
  {
    match GetVideoMetadata(probe)
    case Err(e) => Err(e)
    case Ok(metadata) =>
      if frame.Err? then Err(frame.error)
      else if images.Err? then Err(images.error)
      else
        var lqip := LQIP_PREFIX + Base64(images.value.lqip);
        Ok(VideoPosterResult(images.value.full, images.value.thumb, lqip, metadata.width, metadata.height, metadata.duration))
  }

  /** ensureTempDir: creates the directory when missing and answers its path. */
  method EnsureTempDir(dir: TempDir) returns (path: string)
    requires dir.Valid()
    modifies dir
    ensures dir.Valid() && dir.present && dir.files == old(dir.files)
    ensures path == VIDEO_TEMP_DIR
  {
    if !dir.present {
      dir.MakeDir();
    }
    path := VIDEO_TEMP_DIR;
  }

  /** cleanupTempFile: unlink, with any rejection swallowed. */
  method CleanupTempFile(dir: TempDir, name: string, unlinkFails: set<string>)
    requires dir.Valid()
    modifies dir
    ensures dir.Valid() && dir.present == old(dir.present)
    ensures dir.files == if name in old(dir.files) && name !in unlinkFails then old(dir.files) - {name} else old(dir.files)
  {
    var removed := dir.Unlink(name, unlinkFails);
  }
}
