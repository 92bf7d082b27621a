/**
 * The start-up hook of the durable queue: two seconds after the server starts it
 * recovers the jobs that were processing when the server stopped, counts the pending
 * jobs of every type, and starts the transcode task when there are any. An error in
 * either statement is logged and swallowed.
 */
module JobQueueInit {
  import opened Wrappers
  import opened JobSchema
  import opened JobQueue

  /** The delay between server start and the hook. */
  const INIT_DELAY_MS: int := 2000

  /** Which statement, if any, throws. */
  datatype InitFault = NoFault | RecoverFails | CountFails

  /**
   * The hook at time `nowMs`. When the recovery throws the table is as before; when
   * only the count throws the recovery stands. The transcode task is triggered only
   * when both succeed and some pending job exists.
   */
  method Init(jobs: JobTable, nowMs: int, fault: InitFault) returns (triggered: bool)
    requires jobs.Valid()
    modifies jobs
    ensures jobs.Valid()
    ensures jobs.rows == if fault == RecoverFails then old(jobs.rows) else Recover(old(jobs.rows), nowMs)
    ensures triggered <==> fault == NoFault && PendingCount(Recover(old(jobs.rows), nowMs), None) > 0
  {
    triggered := false;
    if fault == RecoverFails {
      return;
    }
    var recovered := jobs.RecoverStuckJobs(nowMs);
    if fault == CountFails {
      return;
    }
    var pending := jobs.GetPendingJobCount(None);
    if pending > 0 {
      triggered := true;
    }
  }

  /**
   * The start-up trigger is missed only when nothing is pending: with no fault, every
   * job that was stuck before the restart is pending afterwards and starts the task.
   */
  lemma StuckJobTriggersStart(t: Table, nowMs: int, i: nat)
    requires i < |t| && IsStuck(t[i], nowMs)
    ensures Recover(t, nowMs)[i].status == Pending
    ensures PendingCount(Recover(t, nowMs), None) > 0
  {
    assert Recover(t, nowMs)[i] in Recover(t, nowMs);
  }
}
