/**
 * The `video:transcode` task: claim one job, transcode it, record the outcome on the
 * job and on its media item, and schedule another run while pending jobs remain.
 */
module TranscodeTask {
  import opened Wrappers
  import opened JobSchema
  import opened Effects
  import opened JobQueue
  import VideoTranscoder

  /** The delay before the task runs again when jobs remain. */
  const RESCHEDULE_DELAY_MS: int := 1000

  /** The message recorded for a thrown value: an error's message, or the value as a string. */
  function ErrorMessage(e: Thrown): (m: string)
    ensures e.ErrorObject? ==> m == e.message
    ensures e.HttpError? ==> m == e.statusMessage
    ensures e.OtherValue? ==> m == e.text
  {
    match e
    case ErrorObject(message) => message
    case HttpError(_, statusMessage) => statusMessage
    case OtherValue(text) => text
  }

  datatype RunResult =
    | NoPendingJobs
    | Processed(processed: nat, duration: int, pendingCount: nat)

  /**
   * The job rows after the task handled the claimed `job` (whose claim is already in `t`):
   * a successful transcode completes it; a transcode failure fails it; a failure of the
   * media update after completion falls into the same handler and fails the completed row.
   */
  function AfterRun(t: Table, job: Job, outcome: Outcome<Thrown>, mediaUpdate: Outcome<Thrown>, doneSec: Seconds): Table {
    if outcome.Fail? then FailAttempt(t, job.id, ErrorMessage(outcome.error))
    else if mediaUpdate.Fail? then FailAttempt(Complete(t, job.id, doneSec), job.id, ErrorMessage(mediaUpdate.error))
    else Complete(t, job.id, doneSec)
  }

  /** The media rows after the task: ready with the web path on success, failed when the job failed for good. */
  function MediaAfterRun(media: map<string, MediaRow>, rows: Table, job: Job, outcome: Outcome<Thrown>, mediaUpdate: Outcome<Thrown>): map<string, MediaRow> {
    if outcome.Pass? && mediaUpdate.Pass? then MarkedReady(media, job.mediaId, job.targetPath)
    else
      var updated := JobById(rows, job.id);
      if updated.Some? && updated.value.status == Failed then MarkedFailed(media, job.mediaId) else media
  }

  /**
   * The handler after a transcode with the given outcome: complete and mark the media
   * ready, or (on any failure, including one of the media update) fail the job and mark
   * the media failed once the job failed for good. Answers the number of jobs processed.
   */
  method RecordOutcome(jobs: JobTable, media: MediaTable, job: Job, outcome: Outcome<Thrown>, doneMs: int, mediaUpdate: Outcome<Thrown>)
    returns (processed: nat)
    requires jobs.Valid()
    modifies jobs, media
    ensures jobs.Valid()
    ensures jobs.rows == AfterRun(old(jobs.rows), job, outcome, mediaUpdate, SecondsOf(doneMs))
    ensures media.rows == MediaAfterRun(old(media.rows), jobs.rows, job, outcome, mediaUpdate)
    ensures processed == if outcome.Pass? then 1 else 0
  {
    processed := 0;
    var failure: Option<Thrown> := None;
    if outcome.Pass? {
      jobs.CompleteJob(job.id, doneMs);
      processed := processed + 1;
      if mediaUpdate.Pass? {
        media.MarkReady(job.mediaId, job.targetPath);
      } else {
        failure := Some(mediaUpdate.error);
      }
    } else {
      failure := Some(outcome.error);
    }

    if failure.Some? {
      jobs.FailJob(job.id, ErrorMessage(failure.value));
      var updatedJob := JobById(jobs.rows, job.id);
      if updatedJob.Some? && updatedJob.value.status == Failed {
        media.MarkFailed(job.mediaId);
      }
    }
  }

  /** The claimed job's share of a run: transcode it, then record the outcome. */
  method ProcessJob(jobs: JobTable, media: MediaTable, store: BlobStore, dir: TempDir, job: Job,
                    startMs: int, doneMs: int, fx: VideoTranscoder.TranscodeEffects, unlinkFails: set<string>,
                    mediaUpdate: Outcome<Thrown>)
    returns (processed: nat)
    requires jobs.Valid() && dir.Valid()
    modifies jobs, media, store, dir
    ensures jobs.Valid() && dir.Valid() && dir.present
    ensures var outcome := VideoTranscoder.TranscodeOutcome(old(store.blobs), job.sourcePath, fx);
      && jobs.rows == AfterRun(old(jobs.rows), job, outcome, mediaUpdate, SecondsOf(doneMs))
      && media.rows == MediaAfterRun(old(media.rows), jobs.rows, job, outcome, mediaUpdate)
      && store.blobs == (if outcome.Pass? then old(store.blobs)[job.targetPath := fx.encode.value] else old(store.blobs))
      && processed == (if outcome.Pass? then 1 else 0)
    ensures VideoTranscoder.InputName(job.mediaId) !in unlinkFails ==> VideoTranscoder.InputName(job.mediaId) !in dir.files
    ensures VideoTranscoder.OutputName(job.mediaId) !in unlinkFails ==> VideoTranscoder.OutputName(job.mediaId) !in dir.files
    ensures dir.files - {VideoTranscoder.InputName(job.mediaId), VideoTranscoder.OutputName(job.mediaId)}
            == old(dir.files) - {VideoTranscoder.InputName(job.mediaId), VideoTranscoder.OutputName(job.mediaId)}
  {
    var outcome := VideoTranscoder.TranscodeVideo(store, dir, job.mediaId, job.sourcePath, job.targetPath, startMs, fx, unlinkFails);
    processed := RecordOutcome(jobs, media, job, outcome, doneMs, mediaUpdate);
  }

  /**
   * One run of the task at `startMs`, finishing at `doneMs`. `fx` and `unlinkFails` decide
   * the transcoder's steps; `mediaUpdate` is the outcome of marking the media item ready.
   */
  method Run(jobs: JobTable, media: MediaTable, store: BlobStore, dir: TempDir,
             startMs: int, doneMs: int, fx: VideoTranscoder.TranscodeEffects, unlinkFails: set<string>,
             mediaUpdate: Outcome<Thrown>)
    returns (result: RunResult, rescheduled: bool)
    requires jobs.Valid() && dir.Valid()
    modifies jobs, media, store, dir
    ensures jobs.Valid() && dir.Valid()
    ensures var c := ClaimNext(old(jobs.rows), VideoTranscode, SecondsOf(startMs));
      c.claimed.None? ==>
        && result == NoPendingJobs && !rescheduled
        && jobs.rows == old(jobs.rows) && media.rows == old(media.rows)
        && store.blobs == old(store.blobs) && dir.files == old(dir.files) && dir.present == old(dir.present)
    ensures var c := ClaimNext(old(jobs.rows), VideoTranscode, SecondsOf(startMs));
      c.claimed.Some? ==>
        var job := c.claimed.value;
        var outcome := VideoTranscoder.TranscodeOutcome(old(store.blobs), job.sourcePath, fx);
        && jobs.rows == AfterRun(c.table, job, outcome, mediaUpdate, SecondsOf(doneMs))
        && media.rows == MediaAfterRun(old(media.rows), jobs.rows, job, outcome, mediaUpdate)
        && store.blobs == (if outcome.Pass? then old(store.blobs)[job.targetPath := fx.encode.value] else old(store.blobs))
        && dir.present
        && (VideoTranscoder.InputName(job.mediaId) !in unlinkFails ==> VideoTranscoder.InputName(job.mediaId) !in dir.files)
        && (VideoTranscoder.OutputName(job.mediaId) !in unlinkFails ==> VideoTranscoder.OutputName(job.mediaId) !in dir.files)
        && dir.files - {VideoTranscoder.InputName(job.mediaId), VideoTranscoder.OutputName(job.mediaId)}
           == old(dir.files) - {VideoTranscoder.InputName(job.mediaId), VideoTranscoder.OutputName(job.mediaId)}
        && result == Processed(if outcome.Pass? then 1 else 0, doneMs - startMs, PendingCount(jobs.rows, Some(VideoTranscode)))
        && (rescheduled <==> PendingCount(jobs.rows, Some(VideoTranscode)) > 0)
  {
    var claimed := jobs.ClaimNextJob(VideoTranscode, startMs);
    if claimed.None? {
      return NoPendingJobs, false;
    }
    var processed := ProcessJob(jobs, media, store, dir, claimed.value, startMs, doneMs, fx, unlinkFails, mediaUpdate);
    var pendingCount := jobs.GetPendingJobCount(Some(VideoTranscode));
    rescheduled := pendingCount > 0;
    result := Processed(processed, doneMs - startMs, pendingCount);
  }

  /**
   * What one run does to the claimed job: it is the oldest claimable job, it gets one
   * more attempt, and it ends completed (success), or pending or failed for good
   * according to its budget. When only the media update failed, the row keeps the
   * `completed_at` its completion wrote although it is no longer completed.
   */
  lemma RunJobOutcome(t: Table, startSec: Seconds, doneSec: Seconds, outcome: Outcome<Thrown>, mediaUpdate: Outcome<Thrown>)
    requires UniqueIds(t)
    requires exists j :: j in t && Matches(Claimable(VideoTranscode), j)
    ensures var i := OldestAt(t, Claimable(VideoTranscode)).value;
      var c := ClaimNext(t, VideoTranscode, startSec);
      var r := AfterRun(c.table, c.claimed.value, outcome, mediaUpdate, doneSec);
      && |r| == |t| && r == t[i := r[i]]
      && SameIdentity(r[i], t[i])
      && r[i].attempts == t[i].attempts + 1
      && (outcome.Pass? && mediaUpdate.Pass? ==>
            r[i].status == Completed && r[i].completedAt == Some(doneSec) && r[i].startedAt == Some(startSec))
      && (outcome.Fail? ==>
            && (r[i].status == Failed <==> t[i].attempts + 1 >= t[i].maxAttempts)
            && (r[i].status == Pending <==> t[i].attempts + 1 < t[i].maxAttempts)
            && r[i].error == Some(ErrorMessage(outcome.error)) && r[i].completedAt == t[i].completedAt)
      && (outcome.Pass? && mediaUpdate.Fail? ==>
            && (r[i].status == Failed <==> t[i].attempts + 1 >= t[i].maxAttempts)
            && (r[i].status == Pending <==> t[i].attempts + 1 < t[i].maxAttempts)
            && r[i].error == Some(ErrorMessage(mediaUpdate.error)) && r[i].completedAt == Some(doneSec))
  {
    var i := ClaimNextRow(t, VideoTranscode, startSec);
    var c := ClaimNext(t, VideoTranscode, startSec);
    AfterRunOnRow(c.table, i, c.claimed.value, outcome, mediaUpdate, doneSec);
    var r := AfterRun(c.table, c.claimed.value, outcome, mediaUpdate, doneSec);
    RowUpdatedTwice(t, c.table, r, i);
  }

  /** A row rewritten twice: the table differs from the first only in that row. */
  lemma RowUpdatedTwice(t: Table, u: Table, r: Table, i: nat)
    requires i < |t| && |u| == |t| && |r| == |u|
    requires u == t[i := u[i]] && r == u[i := r[i]]
    ensures r == t[i := r[i]]
  {
    assert forall k :: 0 <= k < |r| && k != i ==> r[k] == u[k] == t[k];
  }

  /** The task's effect on the claimed row, whatever the row was before. */
  lemma AfterRunOnRow(u: Table, i: nat, job: Job, outcome: Outcome<Thrown>, mediaUpdate: Outcome<Thrown>, doneSec: Seconds)
    requires UniqueIds(u) && i < |u| && job.id == u[i].id
    ensures var r := AfterRun(u, job, outcome, mediaUpdate, doneSec);
      && |r| == |u| && r == u[i := r[i]]
      && SameIdentity(r[i], u[i]) && r[i].attempts == u[i].attempts
      && (outcome.Pass? && mediaUpdate.Pass? ==>
            r[i].status == Completed && r[i].completedAt == Some(doneSec) && r[i].startedAt == u[i].startedAt)
      && (outcome.Fail? ==>
            && r[i].status == (if u[i].attempts >= u[i].maxAttempts then Failed else Pending)
            && r[i].error == Some(ErrorMessage(outcome.error)) && r[i].completedAt == u[i].completedAt)
      && (outcome.Pass? && mediaUpdate.Fail? ==>
            && r[i].status == (if u[i].attempts >= u[i].maxAttempts then Failed else Pending)
            && r[i].error == Some(ErrorMessage(mediaUpdate.error)) && r[i].completedAt == Some(doneSec))
  {
    if outcome.Fail? {
      FailOnRow(u, i, ErrorMessage(outcome.error));
    } else {
      CompleteOnRow(u, i, doneSec);
      if mediaUpdate.Fail? {
        FailOnRow(Complete(u, job.id, doneSec), i, ErrorMessage(mediaUpdate.error));
      }
    }
  }

  /**
   * The media item follows its job: ready with the job's target path after success,
   * failed exactly when the job failed for good, untouched while a retry is pending.
   */
  lemma MediaFollowsJob(media: map<string, MediaRow>, rows: Table, job: Job, i: nat, outcome: Outcome<Thrown>, mediaUpdate: Outcome<Thrown>)
    requires UniqueIds(rows) && i < |rows| && rows[i].id == job.id
    ensures var m := MediaAfterRun(media, rows, job, outcome, mediaUpdate);
      && (outcome.Pass? && mediaUpdate.Pass? ==> job.mediaId in media ==> m[job.mediaId] == MediaRow(READY, Some(job.targetPath)))
      && (!(outcome.Pass? && mediaUpdate.Pass?) && rows[i].status == Failed ==> m == MarkedFailed(media, job.mediaId))
      && (!(outcome.Pass? && mediaUpdate.Pass?) && rows[i].status != Failed ==> m == media)
  {
  }
}
