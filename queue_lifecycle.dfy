/**
 * What the queue's statements guarantee when several workers, the maintenance
 * task and the media deletion cascade interleave their statements on the shared
 * table: the compare-and-swap claim, stuck-job recovery and the retry budget.
 */
module QueueLifecycle {
  import opened Wrappers
  import opened JobSchema
  import opened JobQueue

  /** The statements that can run between two statements of one worker. */
  datatype QueueOp =
    | EnqueueOp(id: JobId, mediaId: MediaId, jobType: JobType, sourcePath: string, targetPath: string, enqueueMs: int)
    | ClaimOp(snapshot: Job, claimSec: Seconds)
    | CompleteOp(completeId: JobId, completeSec: Seconds)
    | FailOp(failId: JobId, message: string)
    | RecoverOp(recoverMs: int)
    | CleanupOldOp(cleanupMs: int)
    | CleanupFailedOp(sweepMs: int, failing: set<string>)
    | DeleteMediaOp(deletedMedia: MediaId)   // the `on delete cascade` of job.media_id

  function Apply(t: Table, op: QueueOp): Table {
    match op
    case EnqueueOp(id, m, ty, src, tgt, ms) =>
      var r := Enqueue(t, id, m, ty, src, tgt, ms);
      if r.Some? then r.value else t
    case ClaimOp(snapshot, sec) => CasClaim(t, snapshot, sec).table
    case CompleteOp(id, sec) => Complete(t, id, sec)
    case FailOp(id, message) => FailAttempt(t, id, message)
    case RecoverOp(ms) => Recover(t, ms)
    case CleanupOldOp(ms) => CleanupOld(t, ms)
    case CleanupFailedOp(ms, failing) => CleanupFailed(t, map[], ms, failing).rows
    case DeleteMediaOp(m) => Delete(t, HasMedia(m))
  }

  function ApplyAll(t: Table, ops: seq<QueueOp>): Table
    decreases |ops|
  {
    if ops == [] then t else ApplyAll(Apply(t, ops[0]), ops[1..])
  }

  /** Deleting a media row deletes exactly its jobs (`on delete cascade`). */
  lemma MediaDeletionCascades(t: Table, m: MediaId)
    ensures forall j :: j in Apply(t, DeleteMediaOp(m)) <==> j in t && j.mediaId != m
    ensures |Apply(t, DeleteMediaOp(m))| == |t| - Count(t, HasMedia(m))
  {
  }

  /** No row with this id is pending: a compare-and-swap on it cannot succeed. */
  predicate NoPending(t: Table, id: JobId) {
    forall j :: j in t ==> !(j.id == id && j.status == Pending)
  }

  /** The statements that can turn a row with this id back to pending. */
  predicate MayRequeue(op: QueueOp, id: JobId) {
    || (op.EnqueueOp? && op.id == id)
    || (op.FailOp? && op.failId == id)
    || op.RecoverOp?
  }

  lemma SweepRowsShrink(t: Table, nowMs: int, failing: set<string>)
    ensures forall j :: j in CleanupFailed(t, map[], nowMs, failing).rows ==> j in t
  {
    SweepAllClosedForm(Sweep(t, map[], 0), Select(t, FailedBefore(FailedCutoff(nowMs))), failing);
  }

  lemma ApplyKeepsNoPending(t: Table, op: QueueOp, id: JobId)
    requires NoPending(t, id) && !MayRequeue(op, id)
    ensures NoPending(Apply(t, op), id)
  {
    var r := Apply(t, op);
    match op
    case EnqueueOp(x, m, ty, src, tgt, ms) =>
    case ClaimOp(snapshot, sec) =>
      forall j | j in r ensures !(j.id == id && j.status == Pending) {
        var k :| 0 <= k < |r| && r[k] == j;
        assert Matches(PendingWithId(snapshot.id), t[k]) || r[k] == t[k];
      }
    case CompleteOp(x, sec) =>
      forall j | j in r ensures !(j.id == id && j.status == Pending) {
        var k :| 0 <= k < |r| && r[k] == j;
        assert t[k].id == x || r[k] == t[k];
      }
    case FailOp(x, message) =>
      forall j | j in r ensures !(j.id == id && j.status == Pending) {
        var k :| 0 <= k < |r| && r[k] == j;
        assert t[k].id == x || r[k] == t[k];
      }
    case CleanupOldOp(ms) =>
    case CleanupFailedOp(ms, failing) =>
      SweepRowsShrink(t, ms, failing);
    case DeleteMediaOp(m) =>
  }

  lemma {:induction false} ApplyAllKeepsNoPending(t: Table, ops: seq<QueueOp>, id: JobId)
    requires NoPending(t, id)
    requires forall k :: 0 <= k < |ops| ==> !MayRequeue(ops[k], id)
    ensures NoPending(ApplyAll(t, ops), id)
    decreases |ops|
  {
    if ops != [] {
      ApplyKeepsNoPending(t, ops[0], id);
      ApplyAllKeepsNoPending(Apply(t, ops[0]), ops[1..], id);
    }
  }

  /** After a compare-and-swap on an id, no row with that id is pending any more. */
  lemma CasLeavesNoPending(t: Table, snapshot: Job, nowSec: Seconds)
    ensures NoPending(CasClaim(t, snapshot, nowSec).table, snapshot.id)
  {
    var r := CasClaim(t, snapshot, nowSec).table;
    forall j | j in r ensures !(j.id == snapshot.id && j.status == Pending) {
      var k :| 0 <= k < |r| && r[k] == j;
    }
  }

  /**
   * A job is processed by at most one worker: once one worker's compare-and-swap has
   * taken it, another worker's swap on the same id (with whatever snapshot it read)
   * returns nothing and changes nothing, whatever statements ran in between, unless one
   * of them could requeue the job (failJob on it, recovery, or a re-insert of its id).
   */
  lemma SecondClaimLoses(t: Table, a: Job, b: Job, secA: Seconds, secB: Seconds, between: seq<QueueOp>)
    requires a.id == b.id
    requires forall k :: 0 <= k < |between| ==> !MayRequeue(between[k], a.id)
    ensures var t1 := ApplyAll(CasClaim(t, a, secA).table, between);
      CasClaim(t1, b, secB) == ClaimResult(t1, None)
  {
    CasLeavesNoPending(t, a, secA);
    ApplyAllKeepsNoPending(CasClaim(t, a, secA).table, between, a.id);
    LostRaceChangesNothing(ApplyAll(CasClaim(t, a, secA).table, between), b, secB);
  }

  /**
   * Two workers that read the same table pick the same candidate; the first swap
   * takes it and the second gets nothing.
   */
  lemma TwoWorkersOneWinner(t: Table, jobType: JobType, secA: Seconds, secB: Seconds)
    requires UniqueIds(t)
    requires exists j :: j in t && Matches(Claimable(jobType), j)
    ensures var c := OldestAt(t, Claimable(jobType));
      && c.Some?
      && CasClaim(t, t[c.value], secA).claimed.Some?
      && CasClaim(CasClaim(t, t[c.value], secA).table, t[c.value], secB).claimed.None?
  {
    MatchAt(t, Claimable(jobType));
    var i := OldestAt(t, Claimable(jobType)).value;
    assert Matches(PendingWithId(t[i].id), t[i]);
    SecondClaimLoses(t, t[i], t[i], secA, secB, []);
  }

  // ---------------------------------------------------------------------------
  // Recovery of stuck jobs
  // ---------------------------------------------------------------------------

  /**
   * A claim is safe from recovery for five minutes: a recovery at most five minutes
   * after the claim leaves the claimed row processing.
   */
  lemma FreshClaimNotRecovered(t: Table, snapshot: Job, claimMs: int, recoverMs: int, i: nat)
    requires i < |t| && Matches(PendingWithId(snapshot.id), t[i])
    requires recoverMs - claimMs <= STUCK_AFTER_MS
    ensures var t1 := CasClaim(t, snapshot, SecondsOf(claimMs)).table;
      Recover(t1, recoverMs)[i] == t1[i] && t1[i].status == Processing
  {
    var t1 := CasClaim(t, snapshot, SecondsOf(claimMs)).table;
    assert t1[i].startedAt == Some(SecondsOf(claimMs));
    assert SecondsOf(recoverMs - STUCK_AFTER_MS) <= SecondsOf(claimMs);
  }

  /**
   * A claim whose worker vanished is recovered once it is more than five minutes (plus
   * the second lost to the stored precision) old: the row is pending again with its
   * attempt count kept, so the next claim counts one more attempt.
   */
  lemma AbandonedClaimRecovered(t: Table, snapshot: Job, claimMs: int, recoverMs: int, i: nat)
    requires i < |t| && Matches(PendingWithId(snapshot.id), t[i])
    requires recoverMs - claimMs >= STUCK_AFTER_MS + 1000
    ensures var t1 := CasClaim(t, snapshot, SecondsOf(claimMs)).table;
      && IsStuck(t1[i], recoverMs)
      && Recover(t1, recoverMs)[i].status == Pending
      && Recover(t1, recoverMs)[i].attempts == snapshot.attempts + 1
      && Recover(t1, recoverMs)[i].startedAt.None?
  {
    var t1 := CasClaim(t, snapshot, SecondsOf(claimMs)).table;
    assert t1[i].startedAt == Some(SecondsOf(claimMs));
    assert SecondsOf(claimMs) < SecondsOf(recoverMs - STUCK_AFTER_MS);
  }

  // ---------------------------------------------------------------------------
  // The retry budget
  // ---------------------------------------------------------------------------

  /** Every row with this id is failed with its budget spent (or there is none). */
  predicate TerminallyFailed(t: Table, id: JobId) {
    forall j :: j in t && j.id == id ==> j.status == Failed && j.attempts >= j.maxAttempts
  }

  /** The statements that can bring such a job back: completeJob on it or a re-insert of its id. */
  predicate MayRevive(op: QueueOp, id: JobId) {
    || (op.EnqueueOp? && op.id == id)
    || (op.CompleteOp? && op.completeId == id)
  }

  lemma ApplyKeepsTerminallyFailed(t: Table, op: QueueOp, id: JobId)
    requires TerminallyFailed(t, id) && !MayRevive(op, id)
    ensures TerminallyFailed(Apply(t, op), id)
  {
    var r := Apply(t, op);
    match op
    case EnqueueOp(x, m, ty, src, tgt, ms) =>
    case ClaimOp(snapshot, sec) =>
      forall j | j in r && j.id == id ensures j.status == Failed && j.attempts >= j.maxAttempts {
        var k :| 0 <= k < |r| && r[k] == j;
        assert t[k] in t;
      }
    case CompleteOp(x, sec) =>
      forall j | j in r && j.id == id ensures j.status == Failed && j.attempts >= j.maxAttempts {
        var k :| 0 <= k < |r| && r[k] == j;
        assert t[k] in t;
      }
    case FailOp(x, message) =>
      forall j | j in r && j.id == id ensures j.status == Failed && j.attempts >= j.maxAttempts {
        var k :| 0 <= k < |r| && r[k] == j;
        assert t[k] in t;
        if t[k].id == x {
          var c := FirstAt(t, HasId(x)).value;
          assert t[c] in t;
        }
      }
    case RecoverOp(ms) =>
      forall j | j in r && j.id == id ensures j.status == Failed && j.attempts >= j.maxAttempts {
        var k :| 0 <= k < |r| && r[k] == j;
        assert t[k] in t;
      }
    case CleanupOldOp(ms) =>
    case CleanupFailedOp(ms, failing) =>
      SweepRowsShrink(t, ms, failing);
    case DeleteMediaOp(m) =>
  }

  /**
   * A job that failed for the last time stays failed: no claim, recovery or further
   * failure of any worker revives it; only completeJob on it or a new row with its id can.
   */
  lemma {:induction false} FailedStaysFailed(t: Table, ops: seq<QueueOp>, id: JobId)
    requires TerminallyFailed(t, id)
    requires forall k :: 0 <= k < |ops| ==> !MayRevive(ops[k], id)
    ensures TerminallyFailed(ApplyAll(t, ops), id)
    decreases |ops|
  {
    if ops != [] {
      ApplyKeepsTerminallyFailed(t, ops[0], id);
      FailedStaysFailed(Apply(t, ops[0]), ops[1..], id);
    }
  }

  /**
   * completeJob does not check the status it overwrites: a worker whose claim was
   * recovered and whose job another worker then failed for good still completes it,
   * and the job leaves the failed state with a completion time.
   */
  lemma CompleteOverridesFailure(t: Table, id: JobId, nowSec: Seconds)
    requires TerminallyFailed(t, id) && exists j :: j in t && j.id == id
    ensures !TerminallyFailed(Apply(t, CompleteOp(id, nowSec)), id)
    ensures forall j :: j in Apply(t, CompleteOp(id, nowSec)) && j.id == id ==> j.status == Completed && j.completedAt == Some(nowSec)
  {
    var r := Apply(t, CompleteOp(id, nowSec));
    var j :| j in t && j.id == id;
    var i :| 0 <= i < |t| && t[i] == j;
    assert r[i] in r && r[i].id == id && r[i].status == Completed;
    forall x | x in r && x.id == id ensures x.status == Completed && x.completedAt == Some(nowSec) {
      var k :| 0 <= k < |r| && r[k] == x;
    }
  }

  /** A terminally failed job is never claimed again. */
  lemma TerminallyFailedNotClaimable(t: Table, id: JobId, jobType: JobType)
    requires TerminallyFailed(t, id)
    ensures forall j :: j in t && j.id == id ==> !Matches(Claimable(jobType), j)
  {
  }

  /**
   * One round of a worker that claims the oldest claimable job and fails it: the row gets
   * one more attempt and is failed for good exactly when that spends the budget.
   */
  lemma ClaimThenFail(t: Table, jobType: JobType, nowSec: Seconds, message: string)
    requires UniqueIds(t)
    requires exists j :: j in t && Matches(Claimable(jobType), j)
    ensures var i := OldestAt(t, Claimable(jobType)).value;
      var r := FailAttempt(ClaimNext(t, jobType, nowSec).table, t[i].id, message);
      && |r| == |t| && r == t[i := r[i]]
      && SameIdentity(r[i], t[i])
      && r[i].attempts == t[i].attempts + 1
      && (r[i].status == Failed <==> t[i].attempts + 1 >= t[i].maxAttempts)
      && (r[i].status == Pending <==> t[i].attempts + 1 < t[i].maxAttempts)
      && r[i].error == Some(message) && r[i].startedAt.None?
  {
    var i := ClaimNextRow(t, jobType, nowSec);
    var c := ClaimNext(t, jobType, nowSec);
    FailOnRow(c.table, i, message);
    var r := FailAttempt(c.table, t[i].id, message);
    assert r == t[i := r[i]];
  }

  /** The row a claim-then-fail round leaves behind. */
  function Retried(j: Job, message: string): Job {
    j.(attempts := j.attempts + 1,
       status := if j.attempts + 1 >= j.maxAttempts then Failed else Pending,
       error := Some(message), startedAt := None)
  }

  lemma SingleRowRound(j: Job, jobType: JobType, nowSec: Seconds, message: string)
    requires Matches(Claimable(jobType), j)
    ensures FailAttempt(ClaimNext([j], jobType, nowSec).table, j.id, message) == [Retried(j, message)]
  {
    assert j in [j];
    ClaimThenFail([j], jobType, nowSec, message);
  }

  /**
   * The budget of three attempts: a job enqueued into an empty table, then claimed and
   * failed three times, is failed for good and no worker can claim it.
   */
  lemma ThreeFailuresExhaustBudget(id: JobId, mediaId: MediaId, src: string, tgt: string, enqueueMs: int, s1: Seconds, s2: Seconds, s3: Seconds, message: string)
    ensures var t0 := Enqueue([], id, mediaId, VideoTranscode, src, tgt, enqueueMs).value;
      var t1 := FailAttempt(ClaimNext(t0, VideoTranscode, s1).table, id, message);
      var t2 := FailAttempt(ClaimNext(t1, VideoTranscode, s2).table, id, message);
      var t3 := FailAttempt(ClaimNext(t2, VideoTranscode, s3).table, id, message);
      && t1[0].status == Pending && t2[0].status == Pending
      && |t3| == 1 && t3[0].status == Failed && t3[0].attempts == 3
      && ClaimNext(t3, VideoTranscode, s3).claimed.None?
  {
    var t0 := Enqueue([], id, mediaId, VideoTranscode, src, tgt, enqueueMs).value;
    var j0 := t0[0];
    assert t0 == [j0];
    SingleRowRound(j0, VideoTranscode, s1, message);
    var j1 := Retried(j0, message);
    SingleRowRound(j1, VideoTranscode, s2, message);
    var j2 := Retried(j1, message);
    SingleRowRound(j2, VideoTranscode, s3, message);
    var j3 := Retried(j2, message);
    assert j3 in [j3];
    ClaimNextSpec([j3], VideoTranscode, s3);
  }
}
