/**
 * The `jobs:maintenance` task: recover stuck jobs, delete old completed jobs, sweep
 * old failed jobs and their source blobs, sweep orphaned temporary files, and count
 * the pending jobs; a run that recovered something triggers the transcode task.
 * Every statement reads the same clock value `nowMs`.
 */
module MaintenanceTask {
  import opened Wrappers
  import opened JobSchema
  import opened Effects
  import opened JobQueue
  import VideoTranscoder

  datatype Report = Report(recovered: nat, cleaned: nat, blobsCleaned: nat, tempFilesCleaned: nat, pending: nat)

  /** The rows after the three table statements, in the task's order. */
  function MaintainedRows(t: Table, blobs: map<string, Bytes>, nowMs: int, blobFails: set<string>): Table {
    CleanupFailed(CleanupOld(Recover(t, nowMs), nowMs), blobs, nowMs, blobFails).rows
  }

  /**
   * One run. `blobFails` are the blob keys whose deletion throws; `listFails` and
   * `fileFails` are the failures of the temporary directory's listing and entries.
   * The result's `triggered` says whether the transcode task is started.
   */
  method Run(jobs: JobTable, store: BlobStore, dir: TempDir, nowMs: int,
             blobFails: set<string>, listFails: bool, fileFails: set<string>)
    returns (report: Report, triggered: bool)
    requires jobs.Valid() && dir.Valid()
    modifies jobs, store, dir
    ensures jobs.Valid() && dir.Valid() && dir.present == old(dir.present)
    ensures var recovered := Recover(old(jobs.rows), nowMs);
      var kept := CleanupOld(recovered, nowMs);
      var swept := CleanupFailed(kept, old(store.blobs), nowMs, blobFails);
      && jobs.rows == swept.rows && store.blobs == swept.blobs
      && report.recovered == RecoveredCount(old(jobs.rows), nowMs)
      && report.cleaned == |recovered| - |kept|
      && report.blobsCleaned == swept.cleaned
      && report.pending == PendingCount(swept.rows, None)
    ensures !old(dir.present) || listFails ==> report.tempFilesCleaned == 0 && dir.files == old(dir.files)
    ensures old(dir.present) && !listFails ==>
      && dir.files == old(dir.files) - VideoTranscoder.Orphans(old(dir.files), nowMs, fileFails)
      && report.tempFilesCleaned == |VideoTranscoder.Orphans(old(dir.files), nowMs, fileFails)|
    ensures triggered <==> report.recovered > 0
  {
    var recovered := jobs.RecoverStuckJobs(nowMs);
    var cleaned := jobs.CleanupOldJobs(nowMs);
    var blobsCleaned := jobs.CleanupFailedJobBlobs(store, nowMs, blobFails);
    var tempFilesCleaned := VideoTranscoder.CleanupOrphanedTempFiles(dir, nowMs, listFails, fileFails);
    var pending := jobs.GetPendingJobCount(None);
    triggered := recovered > 0;
    report := Report(recovered, cleaned, blobsCleaned, tempFilesCleaned, pending);
  }

  /**
   * Maintenance never loses live work: every pending or processing job is still there
   * afterwards with its attempt count: pending if it was pending or stuck, otherwise
   * still processing.
   */
  lemma MaintenanceKeepsLiveJobs(t: Table, blobs: map<string, Bytes>, nowMs: int, blobFails: set<string>, i: nat)
    requires UniqueIds(t) && i < |t| && t[i].status in {Pending, Processing}
    ensures var r := Recover(t, nowMs)[i];
      && r in MaintainedRows(t, blobs, nowMs, blobFails)
      && SameIdentity(r, t[i]) && r.attempts == t[i].attempts
      && (r.status == Processing <==> t[i].status == Processing && !IsStuck(t[i], nowMs))
      && (r.status == Pending <==> t[i].status == Pending || IsStuck(t[i], nowMs))
  {
    var rec := Recover(t, nowMs);
    assert rec[i].status in {Pending, Processing};
    UpdateKeepsUnique(t, rec);
    LiveRowSurvivesCleanup(rec, blobs, nowMs, blobFails, rec[i]);
  }

  lemma LiveRowSurvivesCleanup(t: Table, blobs: map<string, Bytes>, nowMs: int, blobFails: set<string>, j: Job)
    requires UniqueIds(t) && j in t && j.status in {Pending, Processing}
    ensures j in CleanupFailed(CleanupOld(t, nowMs), blobs, nowMs, blobFails).rows
  {
    var kept := CleanupOld(t, nowMs);
    DeleteKeepsUnique(t, CompletedBefore(CompletedCutoff(nowMs)));
    assert j in kept;
    UnselectedRowSurvivesSweep(kept, blobs, nowMs, blobFails, j);
  }

  /** A run leaves no stuck job behind. */
  lemma NoStuckJobAfterMaintenance(t: Table, blobs: map<string, Bytes>, nowMs: int, blobFails: set<string>)
    requires UniqueIds(t)
    ensures forall j :: j in MaintainedRows(t, blobs, nowMs, blobFails) ==> !IsStuck(j, nowMs)
  {
    var rec := Recover(t, nowMs);
    RecoverIdempotent(t, nowMs);
    UpdateKeepsUnique(t, rec);
    var kept := CleanupOld(rec, nowMs);
    DeleteKeepsUnique(rec, CompletedBefore(CompletedCutoff(nowMs)));
    CleanupFailedSpec(kept, blobs, nowMs, blobFails);
  }
}
