/**
 * The older in-process video queue: a FIFO of transcode requests and a `processing`
 * flag that lets one request run at a time. A failed request marks its media item
 * failed and is never retried.
 */
module VideoJobs {
  import opened Wrappers
  import opened Effects
  import VideoTranscoder
  import VideoVariants

  /** One transcode request: the media item, its original blob and the web blob to write. */
  datatype VideoJob = VideoJob(mediaId: string, originalPath: string, webPath: string)

  const LEGACY_INPUT_SUFFIX: string := "-transcode-in.mp4"
  const LEGACY_OUTPUT_SUFFIX: string := "-transcode-out.mp4"

  /** The name of the request's staged original in the shared temporary directory. */
  function LegacyInputName(mediaId: string): (n: string)
    ensures |n| == |mediaId| + |LEGACY_INPUT_SUFFIX|
    ensures n[..|mediaId|] == mediaId && n[|mediaId|..] == LEGACY_INPUT_SUFFIX
  {
    mediaId + LEGACY_INPUT_SUFFIX
  }

  /** The name of the request's encoder output in the shared temporary directory. */
  function LegacyOutputName(mediaId: string): (n: string)
    ensures |n| == |mediaId| + |LEGACY_OUTPUT_SUFFIX|
    ensures n[..|mediaId|] == mediaId && n[|mediaId|..] == LEGACY_OUTPUT_SUFFIX
  {
    mediaId + LEGACY_OUTPUT_SUFFIX
  }

  /**
   * The temporary files of the two queues never collide, although both use the same
   * directory; one request's input and output are distinct files; and each name
   * determines its media item.
   */
  lemma TempNamesDisjoint(a: string, b: string)
    ensures LegacyInputName(a) == LegacyInputName(b) ==> a == b
    ensures LegacyOutputName(a) == LegacyOutputName(b) ==> a == b
    ensures LegacyInputName(a) != LegacyOutputName(b)
    ensures LegacyInputName(a) != VideoTranscoder.InputName(b) && LegacyInputName(a) != VideoTranscoder.OutputName(b)
    ensures LegacyOutputName(a) != VideoTranscoder.InputName(b) && LegacyOutputName(a) != VideoTranscoder.OutputName(b)
  {
    var li, lo := LegacyInputName(a), LegacyOutputName(b);
    var di, do := VideoTranscoder.InputName(b), VideoTranscoder.OutputName(b);
    var lo2 := LegacyOutputName(a);
    if li == LegacyInputName(b) {
      assert a == li[..|a|];
    }
    if lo2 == lo {
      assert a == lo2[..|a|];
    }
    // distinguishing characters counted from the end of each name
    assert li[|li| - 1] == '4' && lo2[|lo2| - 1] == '4' && di[|di| - 1] == 'p';
    assert li[|li| - 7] == '-' && lo[|lo| - 7] == 'o' && do[|do| - 7] == 'p';
    assert lo2[|lo2| - 11] == 'o' && do[|do| - 11] == '-';
  }

  /** What the request's steps do: the transcoder's three steps and the final media update. */
  datatype LegacyEffects = LegacyEffects(steps: VideoTranscoder.TranscodeEffects, mediaUpdate: Outcome<Thrown>)

  /** Whether the request succeeds: every step, including the media update, passes. */
  predicate Succeeds(blobs: map<string, Bytes>, job: VideoJob, fx: LegacyEffects) {
    VideoTranscoder.TranscodeOutcome(blobs, job.originalPath, fx.steps).Pass? && fx.mediaUpdate.Pass?
  }

  /** The queue and its flag, the module-level state of the legacy queue. */
  class VideoQueue {
    var videoQueue: seq<VideoJob>
    var processing: bool

    constructor ()
      ensures videoQueue == [] && !processing
    {
      videoQueue := [];
      processing := false;
    }

    /**
     * enqueueTranscode: append at the tail and schedule a pass of processQueue on the
     * next tick; `scheduled` reports that pass, which the caller runs as ProcessQueue.
     */
    method EnqueueTranscode(job: VideoJob) returns (scheduled: bool)
      modifies this
      ensures videoQueue == old(videoQueue) + [job] && processing == old(processing)
      ensures scheduled
    {
      videoQueue := videoQueue + [job];
      scheduled := true;
    }

    /** getQueueStatus */
    method GetQueueStatus() returns (pending: nat, isProcessing: bool)
      ensures pending == |videoQueue| && isProcessing == processing
    {
      pending := |videoQueue|;
      isProcessing := processing;
    }

    /**
     * processQueue. Busy or empty: nothing happens. Otherwise the head is removed and
     * the flag set; when creating the missing directory rejects (`mkdirError`), the call
     * rejects with the flag still set. Otherwise the request runs: on success the media
     * item is ready with the web path, on any failure it is marked failed; the temporary
     * files are removed (unless their unlink fails), the flag is cleared and another pass
     * is scheduled.
     */
    method ProcessQueue(media: MediaTable, store: BlobStore, dir: TempDir, nowMs: int,
                        fx: LegacyEffects, unlinkFails: set<string>, mkdirError: Option<Thrown>)
      returns (r: Outcome<Thrown>, rescheduled: bool)
      requires dir.Valid()
      modifies this, media, store, dir
      ensures dir.Valid()
      ensures old(processing) || old(videoQueue) == [] ==>
        && r.Pass? && !rescheduled
        && videoQueue == old(videoQueue) && processing == old(processing)
        && media.rows == old(media.rows) && store.blobs == old(store.blobs)
        && dir.files == old(dir.files) && dir.present == old(dir.present)
      ensures !old(processing) && old(videoQueue) != [] ==> videoQueue == old(videoQueue)[1..]
      ensures !old(processing) && old(videoQueue) != [] && !old(dir.present) && mkdirError.Some? ==>
        && r == Fail(mkdirError.value) && !rescheduled && processing
        && media.rows == old(media.rows) && store.blobs == old(store.blobs)
        && dir.files == old(dir.files) && !dir.present
      ensures !old(processing) && old(videoQueue) != [] && (old(dir.present) || mkdirError.None?) ==>
        var job := old(videoQueue)[0];
        var steps := VideoTranscoder.TranscodeOutcome(old(store.blobs), job.originalPath, fx.steps);
        && r.Pass? && rescheduled && !processing && dir.present
        && media.rows == (if Succeeds(old(store.blobs), job, fx) then MarkedReady(old(media.rows), job.mediaId, job.webPath)
                          else MarkedFailed(old(media.rows), job.mediaId))
        && store.blobs == (if steps.Pass? then old(store.blobs)[job.webPath := fx.steps.encode.value] else old(store.blobs))
        && (LegacyInputName(job.mediaId) !in unlinkFails ==> LegacyInputName(job.mediaId) !in dir.files)
        && (LegacyOutputName(job.mediaId) !in unlinkFails ==> LegacyOutputName(job.mediaId) !in dir.files)
        && dir.files - {LegacyInputName(job.mediaId), LegacyOutputName(job.mediaId)}
           == old(dir.files) - {LegacyInputName(job.mediaId), LegacyOutputName(job.mediaId)}
    {
      r, rescheduled := Pass, false;
      if processing || |videoQueue| == 0 {
        return;
      }
      processing := true;

      var job := videoQueue[0];
      videoQueue := videoQueue[1..];
      if !dir.present && mkdirError.Some? {
        r := Fail(mkdirError.value);
        return;
      }
      var tempDir := VideoVariants.EnsureTempDir(dir);
      var tempInput := LegacyInputName(job.mediaId);
      var tempOutput := LegacyOutputName(job.mediaId);
      TempNamesDisjoint(job.mediaId, job.mediaId);

      RunRequest(media, store, dir, job, nowMs, fx);

      VideoVariants.CleanupTempFile(dir, tempInput, unlinkFails);
      VideoVariants.CleanupTempFile(dir, tempOutput, unlinkFails);
      processing := false;
      rescheduled := true;
    }
  }

  /**
   * The `try`/`catch` of processQueue: stage, encode, upload, mark ready; any failure on
   * the way (including of the final media update) marks the item failed.
   */
  method RunRequest(media: MediaTable, store: BlobStore, dir: TempDir, job: VideoJob, nowMs: int, fx: LegacyEffects)
    requires dir.Valid() && dir.present
    modifies media, store, dir
    ensures dir.Valid() && dir.present
    ensures media.rows == (if Succeeds(old(store.blobs), job, fx) then MarkedReady(old(media.rows), job.mediaId, job.webPath)
                           else MarkedFailed(old(media.rows), job.mediaId))
    ensures store.blobs == (if VideoTranscoder.TranscodeOutcome(old(store.blobs), job.originalPath, fx.steps).Pass?
                            then old(store.blobs)[job.webPath := fx.steps.encode.value] else old(store.blobs))
    ensures dir.files - {LegacyInputName(job.mediaId), LegacyOutputName(job.mediaId)}
            == old(dir.files) - {LegacyInputName(job.mediaId), LegacyOutputName(job.mediaId)}
  {
    var tempInput := LegacyInputName(job.mediaId);
    var tempOutput := LegacyOutputName(job.mediaId);
    var failed := true;
    if job.originalPath in store.blobs {
      var original := store.blobs[job.originalPath];
      if fx.steps.download.Fail? {
        dir.Write(tempInput, [], nowMs);
      } else {
        dir.Write(tempInput, original, nowMs);
        match fx.steps.encode
        case Err(e) =>
          dir.Write(tempOutput, [], nowMs);
        case Ok(encoded) =>
          dir.Write(tempOutput, encoded, nowMs);
          var transcodedBuffer := dir.files[tempOutput].data;
          var put := store.Put(job.webPath, transcodedBuffer, fx.steps.upload);
          if put.Pass? && fx.mediaUpdate.Pass? {
            media.MarkReady(job.mediaId, job.webPath);
            failed := false;
          }
      }
    }
    if failed {
      media.MarkFailed(job.mediaId);
    }
  }
}
