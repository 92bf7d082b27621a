/**
 * The durable job queue: the operations that read and rewrite the `job` table.
 * The table is a sequence of rows in insertion (rowid) order; every statement is
 * modelled by a function on that sequence, and the class `JobTable` applies those
 * functions to its `rows` field the way the queue's exported functions update the
 * shared table.
 */
module JobQueue {
  import opened Wrappers
  import opened JobSchema
  import opened Effects

  type Table = seq<Job>

  /** A processing job is presumed abandoned once it started this long ago. */
  const STUCK_AFTER_MS: int := 5 * 60 * 1000
  /** Completed jobs are kept this long. */
  const COMPLETED_RETENTION_MS: int := 7 * 24 * 60 * 60 * 1000
  /** Failed jobs (and their source blobs) are kept this long. */
  const FAILED_RETENTION_MS: int := 30 * 24 * 60 * 60 * 1000

  /** The primary key: no two rows share an id. */
  predicate UniqueIds(t: Table) {
    forall i, k :: 0 <= i < k < |t| ==> t[i].id != t[k].id
  }

  function Ids(t: Table): set<JobId> {
    set j | j in t :: j.id
  }

  /** SQL `column < bound`: a NULL column never satisfies the comparison. */
  predicate LessThan(column: Option<Seconds>, bound: Seconds) {
    column.Some? && column.value < bound
  }

  /** The WHERE clauses the queue's statements use. */
  datatype Where =
    | HasId(id: JobId)                  // id = ?
    | HasMedia(mediaId: MediaId)        // media_id = ?
    | PendingWithId(pendingId: JobId)   // id = ? AND status = 'pending'
    | Claimable(jobType: JobType)       // type = ? AND status = 'pending' AND attempts < max_attempts
    | PendingOf(ofType: Option<JobType>)  // status = 'pending' [AND type = ?]
    | StuckBefore(stuckCutoff: Seconds)   // status = 'processing' AND started_at < ?
    | CompletedBefore(doneCutoff: Seconds)  // status = 'completed' AND completed_at < ?
    | FailedBefore(failCutoff: Seconds)     // status = 'failed' AND completed_at < ?

  predicate Matches(w: Where, j: Job) {
    match w
    case HasId(id) => j.id == id
    case HasMedia(m) => j.mediaId == m
    case PendingWithId(id) => j.id == id && j.status == Pending
    case Claimable(ty) => j.jobType == ty && j.status == Pending && j.attempts < j.maxAttempts
    case PendingOf(ty) => j.status == Pending && (ty.Some? ==> j.jobType == ty.value)
    case StuckBefore(c) => j.status == Processing && LessThan(j.startedAt, c)
    case CompletedBefore(c) => j.status == Completed && LessThan(j.completedAt, c)
    case FailedBefore(c) => j.status == Failed && LessThan(j.completedAt, c)
  }

  // ---------------------------------------------------------------------------
  // Generic statements over the table
  // ---------------------------------------------------------------------------

  /** `SELECT count(*) FROM job WHERE w` */
  function Count(t: Table, w: Where): (n: nat)
    ensures n <= |t|
    ensures n == 0 <==> forall j :: j in t ==> !Matches(w, j)
  {
    if t == [] then 0
    else
      assert forall j :: j in t ==> j == t[0] || j in t[1..];
      (if Matches(w, t[0]) then 1 else 0) + Count(t[1..], w)
  }

  /** `SELECT * FROM job WHERE w`, in table order. */
  function Select(t: Table, w: Where): (r: Table)
    ensures |r| == Count(t, w)
    ensures forall j :: j in r <==> j in t && Matches(w, j)
  {
    if t == [] then []
    else
      assert forall j :: j in t ==> j == t[0] || j in t[1..];
      (if Matches(w, t[0]) then [t[0]] else []) + Select(t[1..], w)
  }

  /** `DELETE FROM job WHERE w`: the remaining rows, in table order. */
  function Delete(t: Table, w: Where): (r: Table)
    ensures |r| == |t| - Count(t, w)
    ensures forall j :: j in r <==> j in t && !Matches(w, j)
  {
    if t == [] then []
    else
      assert forall j :: j in t ==> j == t[0] || j in t[1..];
      (if Matches(w, t[0]) then [] else [t[0]]) + Delete(t[1..], w)
  }

  /** `SELECT * FROM job WHERE w LIMIT 1`: the first matching row. */
  function FirstAt(t: Table, w: Where): (r: Option<nat>)
    ensures r.None? <==> forall k :: 0 <= k < |t| ==> !Matches(w, t[k])
    ensures r.Some? ==> r.value < |t| && Matches(w, t[r.value])
    ensures r.Some? ==> forall k :: 0 <= k < r.value ==> !Matches(w, t[k])
  {
    if t == [] then None
    else if Matches(w, t[0]) then Some(0)
    else
      var rest := FirstAt(t[1..], w);
      if rest.Some? then Some(rest.value + 1) else None
  }

  /**
   * `SELECT * FROM job WHERE w ORDER BY created_at LIMIT 1`. SQL leaves the order of
   * rows with equal `created_at` open; the model takes the earliest in table order.
   */
  function OldestAt(t: Table, w: Where): (r: Option<nat>)
    ensures r.None? <==> forall k :: 0 <= k < |t| ==> !Matches(w, t[k])
    ensures r.Some? ==> r.value < |t| && Matches(w, t[r.value])
    ensures r.Some? ==> forall k :: 0 <= k < |t| && Matches(w, t[k]) ==> t[r.value].createdAt <= t[k].createdAt
    ensures r.Some? ==> forall k :: 0 <= k < r.value && Matches(w, t[k]) ==> t[r.value].createdAt < t[k].createdAt
  {
    if t == [] then None
    else
      var rest := OldestAt(t[1..], w);
      if Matches(w, t[0]) && (rest.None? || t[0].createdAt <= t[1..][rest.value].createdAt) then Some(0)
      else if rest.Some? then Some(rest.value + 1)
      else None
  }

  /** `SELECT * FROM job WHERE w ORDER BY created_at DESC LIMIT 1`, ties as in OldestAt. */
  function NewestAt(t: Table, w: Where): (r: Option<nat>)
    ensures r.None? <==> forall k :: 0 <= k < |t| ==> !Matches(w, t[k])
    ensures r.Some? ==> r.value < |t| && Matches(w, t[r.value])
    ensures r.Some? ==> forall k :: 0 <= k < |t| && Matches(w, t[k]) ==> t[k].createdAt <= t[r.value].createdAt
    ensures r.Some? ==> forall k :: 0 <= k < r.value && Matches(w, t[k]) ==> t[k].createdAt < t[r.value].createdAt
  {
    if t == [] then None
    else
      var rest := NewestAt(t[1..], w);
      if Matches(w, t[0]) && (rest.None? || t[0].createdAt >= t[1..][rest.value].createdAt) then Some(0)
      else if rest.Some? then Some(rest.value + 1)
      else None
  }

  function RowAt(t: Table, i: Option<nat>): Option<Job>
    requires i.Some? ==> i.value < |t|
  {
    if i.Some? then Some(t[i.value]) else None
  }

  // ---------------------------------------------------------------------------
  // The queue's statements
  // ---------------------------------------------------------------------------

  /** The values enqueueJob inserts: status pending, every other defaulted column omitted. */
  function EnqueueValues(id: JobId, mediaId: MediaId, jobType: JobType, sourcePath: string, targetPath: string): JobValues {
    JobValues(id, mediaId, jobType, sourcePath, targetPath, Some(Pending), None, None, None, None, None, None)
  }

  /**
   * enqueueJob: inserts one row. An id already in the table violates the primary key
   * and the insert is rejected (`None`).
   */
  function Enqueue(t: Table, id: JobId, mediaId: MediaId, jobType: JobType, sourcePath: string, targetPath: string, nowMs: int): (r: Option<Table>)
    ensures r.None? <==> id in Ids(t)
    ensures r.Some? ==> |r.value| == |t| + 1 && r.value[..|t|] == t
    ensures r.Some? ==> var j := r.value[|t|];
      && j.id == id && j.mediaId == mediaId && j.jobType == jobType
      && j.sourcePath == sourcePath && j.targetPath == targetPath
      && j.status == Pending && j.attempts == 0 && j.maxAttempts == 3
      && j.createdAt == SecondsOf(nowMs)
      && j.error.None? && j.startedAt.None? && j.completedAt.None?
  {
    if id in Ids(t) then None
    else Some(t + [Insert(EnqueueValues(id, mediaId, jobType, sourcePath, targetPath), SecondsOf(nowMs))])
  }

  /** The row a successful claim writes: the attempt count comes from the row read in the first phase. */
  function ClaimedRow(j: Job, snapshot: Job, nowSec: Seconds): Job {
    j.(status := Processing, startedAt := Some(nowSec), attempts := snapshot.attempts + 1)
  }

  datatype ClaimResult = ClaimResult(table: Table, claimed: Option<Job>)

  /**
   * The second phase of claimNextJob, a compare-and-swap:
   * `UPDATE job SET status = 'processing', started_at = now, attempts = snapshot.attempts + 1
   *  WHERE id = snapshot.id AND status = 'pending' RETURNING *`, answering the first returned row.
   */
  function CasClaim(t: Table, snapshot: Job, nowSec: Seconds): (r: ClaimResult)
    ensures |r.table| == |t|
    ensures forall i :: 0 <= i < |t| && Matches(PendingWithId(snapshot.id), t[i]) ==>
      && SameIdentity(r.table[i], t[i]) && r.table[i].status == Processing
      && r.table[i].startedAt == Some(nowSec) && r.table[i].attempts == snapshot.attempts + 1
      && r.table[i].error == t[i].error && r.table[i].completedAt == t[i].completedAt
    ensures forall i :: 0 <= i < |t| && !Matches(PendingWithId(snapshot.id), t[i]) ==> r.table[i] == t[i]
    ensures r.claimed.Some? <==> exists i :: 0 <= i < |t| && Matches(PendingWithId(snapshot.id), t[i])
    ensures r.claimed.Some? ==> r.claimed.value in r.table && r.claimed.value.id == snapshot.id
    ensures r.claimed.Some? ==> r.claimed.value.status == Processing
    ensures r.claimed.None? ==> r.table == t
  {
    var table := seq(|t|, i requires 0 <= i < |t| =>
      if Matches(PendingWithId(snapshot.id), t[i]) then ClaimedRow(t[i], snapshot, nowSec) else t[i]);
    match FirstAt(t, PendingWithId(snapshot.id))
    case None =>
      assert table == t;
      ClaimResult(table, None)
    case Some(i) =>
      ClaimResult(table, Some(table[i]))
  }

  /** claimNextJob without interference: select the oldest claimable job, then swap it in. */
  function ClaimNext(t: Table, jobType: JobType, nowSec: Seconds): (r: ClaimResult)
  {
    match OldestAt(t, Claimable(jobType))
    case None => ClaimResult(t, None)
    case Some(i) => CasClaim(t, t[i], nowSec)
  }

  /** completeJob: `UPDATE job SET status = 'completed', completed_at = now WHERE id = ?` */
  function Complete(t: Table, id: JobId, nowSec: Seconds): (r: Table)
    ensures |r| == |t|
    ensures forall i :: 0 <= i < |t| && t[i].id == id ==>
      && SameIdentity(r[i], t[i]) && r[i].status == Completed && r[i].completedAt == Some(nowSec)
      && r[i].attempts == t[i].attempts && r[i].error == t[i].error && r[i].startedAt == t[i].startedAt
    ensures forall i :: 0 <= i < |t| && t[i].id != id ==> r[i] == t[i]
  {
    seq(|t|, i requires 0 <= i < |t| =>
      if t[i].id == id then t[i].(status := Completed, completedAt := Some(nowSec)) else t[i])
  }

  /** The status failJob writes, from the attempts it read: terminal once the budget is spent. */
  function FailStatus(j: Job): (s: JobStatus)
    ensures s == Failed <==> j.attempts >= j.maxAttempts
    ensures s == Pending <==> j.attempts < j.maxAttempts
  {
    if j.attempts >= j.maxAttempts then Failed else Pending
  }

  /**
   * failJob: reads the row (`LIMIT 1`); for an unknown id nothing happens. Otherwise
   * `UPDATE job SET status = FailStatus(row), error = message, started_at = NULL WHERE id = ?`.
   */
  function FailAttempt(t: Table, id: JobId, message: string): (r: Table)
    ensures |r| == |t|
    ensures FirstAt(t, HasId(id)).None? ==> r == t
    ensures forall i :: 0 <= i < |t| && t[i].id != id ==> r[i] == t[i]
    ensures forall i :: 0 <= i < |t| && t[i].id == id ==>
      && SameIdentity(r[i], t[i]) && r[i].status == FailStatus(t[FirstAt(t, HasId(id)).value])
      && r[i].error == Some(message) && r[i].startedAt.None?
      && r[i].attempts == t[i].attempts && r[i].completedAt == t[i].completedAt
  {
    match FirstAt(t, HasId(id))
    case None => t
    case Some(c) =>
      var status := FailStatus(t[c]);
      seq(|t|, i requires 0 <= i < |t| =>
        if t[i].id == id then t[i].(status := status, error := Some(message), startedAt := None) else t[i])
  }

  /** The bound recoverStuckJobs compares `started_at` with: five minutes ago, in stored seconds. */
  function StuckCutoff(nowMs: int): Seconds {
    SecondsOf(nowMs - STUCK_AFTER_MS)
  }

  predicate IsStuck(j: Job, nowMs: int) {
    Matches(StuckBefore(StuckCutoff(nowMs)), j)
  }

  /**
   * recoverStuckJobs: `UPDATE job SET status = 'pending', started_at = NULL
   * WHERE status = 'processing' AND started_at < now - 5 min`; attempts are not touched.
   */
  function Recover(t: Table, nowMs: int): (r: Table)
    ensures |r| == |t|
    ensures forall i :: 0 <= i < |t| && IsStuck(t[i], nowMs) ==>
      && SameIdentity(r[i], t[i]) && r[i].status == Pending && r[i].startedAt.None?
      && r[i].attempts == t[i].attempts && r[i].error == t[i].error && r[i].completedAt == t[i].completedAt
    ensures forall i :: 0 <= i < |t| && !IsStuck(t[i], nowMs) ==> r[i] == t[i]
  {
    seq(|t|, i requires 0 <= i < |t| =>
      if IsStuck(t[i], nowMs) then t[i].(status := Pending, startedAt := None) else t[i])
  }

  /** The `RETURNING` count of recoverStuckJobs. */
  function RecoveredCount(t: Table, nowMs: int): (n: nat)
    ensures n == 0 <==> forall j :: j in t ==> !IsStuck(j, nowMs)
  {
    Count(t, StuckBefore(StuckCutoff(nowMs)))
  }

  /** getPendingJobCount: pending rows, of the given type when one is given. */
  function PendingCount(t: Table, jobType: Option<JobType>): (n: nat)
    ensures n > 0 <==> exists j :: j in t && j.status == Pending && (jobType.Some? ==> j.jobType == jobType.value)
  {
    Count(t, PendingOf(jobType))
  }

  /** getJobByMediaId: the newest job of the media item, if it has any. */
  function JobByMedia(t: Table, mediaId: MediaId): (r: Option<Job>)
    ensures r.None? <==> forall j :: j in t ==> j.mediaId != mediaId
    ensures r.Some? ==> r.value in t && r.value.mediaId == mediaId
    ensures r.Some? ==> forall j :: j in t && j.mediaId == mediaId ==> j.createdAt <= r.value.createdAt
  {
    var i := NewestAt(t, HasMedia(mediaId));
    assert i.None? ==> forall j :: j in t ==> j.mediaId != mediaId by {
      if i.None? {
        forall j | j in t ensures j.mediaId != mediaId {
          var k :| 0 <= k < |t| && t[k] == j;
        }
      }
    }
    assert i.Some? ==> forall j :: j in t && j.mediaId == mediaId ==> j.createdAt <= t[i.value].createdAt by {
      if i.Some? {
        forall j | j in t && j.mediaId == mediaId ensures j.createdAt <= t[i.value].createdAt {
          var k :| 0 <= k < |t| && t[k] == j;
        }
      }
    }
    RowAt(t, i)
  }

  /** `SELECT * FROM job WHERE id = ? LIMIT 1` */
  function JobById(t: Table, id: JobId): (r: Option<Job>)
    ensures r.None? <==> forall j :: j in t ==> j.id != id
    ensures r.Some? ==> r.value in t && r.value.id == id
    ensures UniqueIds(t) ==> forall i :: 0 <= i < |t| && t[i].id == id ==> r == Some(t[i])
  {
    MatchAt(t, HasId(id));
    RowAt(t, FirstAt(t, HasId(id)))
  }

  function CompletedCutoff(nowMs: int): Seconds {
    SecondsOf(nowMs - COMPLETED_RETENTION_MS)
  }

  /** cleanupOldJobs: `DELETE FROM job WHERE status = 'completed' AND completed_at < now - 7 days`. */
  function CleanupOld(t: Table, nowMs: int): (r: Table)
    ensures forall j :: j in r <==> j in t && !(j.status == Completed && LessThan(j.completedAt, CompletedCutoff(nowMs)))
    ensures |t| - |r| == Count(t, CompletedBefore(CompletedCutoff(nowMs)))
  {
    Delete(t, CompletedBefore(CompletedCutoff(nowMs)))
  }

  function FailedCutoff(nowMs: int): Seconds {
    SecondsOf(nowMs - FAILED_RETENTION_MS)
  }

  /** What the sweep of cleanupFailedJobBlobs has changed so far. */
  datatype Sweep = Sweep(rows: Table, blobs: map<string, Bytes>, cleaned: nat)

  /** One iteration: delete the source blob; only if that succeeds, delete the row and count it. */
  function SweepStep(s: Sweep, j: Job, failing: set<string>): Sweep {
    if j.sourcePath in failing then s
    else Sweep(Delete(s.rows, HasId(j.id)), s.blobs - {j.sourcePath}, s.cleaned + 1)
  }

  function SweepAll(s: Sweep, todo: Table, failing: set<string>): Sweep
    decreases |todo|
  {
    if todo == [] then s else SweepAll(SweepStep(s, todo[0], failing), todo[1..], failing)
  }

  /** One more iteration of the sweep loop. */
  lemma SweepAllUnfold(s: Sweep, todo: Table, i: nat, failing: set<string>)
    requires i < |todo|
    ensures SweepAll(s, todo[i..], failing) == SweepAll(SweepStep(s, todo[i], failing), todo[i + 1..], failing)
  {
    assert todo[i..][1..] == todo[i + 1..];
  }

  /** The jobs of `todo` whose source blob deletion succeeds. */
  function SweptIds(todo: Table, failing: set<string>): set<JobId> {
    set j | j in todo && j.sourcePath !in failing :: j.id
  }

  function SweptPaths(todo: Table, failing: set<string>): set<string> {
    set j | j in todo && j.sourcePath !in failing :: j.sourcePath
  }

  function CountSwept(todo: Table, failing: set<string>): nat {
    if todo == [] then 0 else (if todo[0].sourcePath in failing then 0 else 1) + CountSwept(todo[1..], failing)
  }

  /** cleanupFailedJobBlobs over table `t` and blob map `blobs`; `failing` are the keys whose deletion throws. */
  function CleanupFailed(t: Table, blobs: map<string, Bytes>, nowMs: int, failing: set<string>): Sweep {
    SweepAll(Sweep(t, blobs, 0), Select(t, FailedBefore(FailedCutoff(nowMs))), failing)
  }

  // ---------------------------------------------------------------------------
  // Properties of the statements
  // ---------------------------------------------------------------------------

  lemma UniqueSameId(t: Table, a: Job, b: Job)
    requires UniqueIds(t) && a in t && b in t && a.id == b.id
    ensures a == b
  {
    var i :| 0 <= i < |t| && t[i] == a;
    var k :| 0 <= k < |t| && t[k] == b;
    assert i == k;
  }

  /** Under the primary key, a row with the id is the first (and only) one with it. */
  lemma UniqueFirstAt(t: Table, i: nat)
    requires UniqueIds(t) && i < |t|
    ensures FirstAt(t, HasId(t[i].id)) == Some(i)
    ensures t[i].status == Pending ==> FirstAt(t, PendingWithId(t[i].id)) == Some(i)
  {
    var r := FirstAt(t, HasId(t[i].id));
    assert Matches(HasId(t[i].id), t[i]);
    assert t[r.value].id == t[i].id;
    if t[i].status == Pending {
      var p := FirstAt(t, PendingWithId(t[i].id));
      assert Matches(PendingWithId(t[i].id), t[i]);
      assert t[p.value].id == t[i].id;
    }
  }

  lemma TailUnique(t: Table)
    requires UniqueIds(t) && t != []
    ensures UniqueIds(t[1..])
    ensures forall k :: 0 <= k < |t[1..]| ==> t[1..][k].id != t[0].id
  {
  }

  /** A row whose id no other row has keeps the key unique in front of them. */
  lemma ConsUnique(j: Job, rest: Table)
    requires UniqueIds(rest) && forall k :: 0 <= k < |rest| ==> rest[k].id != j.id
    ensures UniqueIds([j] + rest)
  {
    var r := [j] + rest;
    forall i, k | 0 <= i < k < |r| ensures r[i].id != r[k].id {
      assert r[k] == rest[k - 1];
      if i > 0 {
        assert r[i] == rest[i - 1];
      }
    }
  }

  /** A deletion keeps the primary key. */
  lemma {:induction false} DeleteKeepsUnique(t: Table, w: Where)
    requires UniqueIds(t)
    ensures UniqueIds(Delete(t, w))
  {
    if t != [] {
      TailUnique(t);
      DeleteKeepsUnique(t[1..], w);
      var rest := Delete(t[1..], w);
      if !Matches(w, t[0]) {
        forall k | 0 <= k < |rest| ensures rest[k].id != t[0].id {
          assert rest[k] in rest;
          var m :| 0 <= m < |t[1..]| && t[1..][m] == rest[k];
        }
        ConsUnique(t[0], rest);
      }
    }
  }

  /** An update that rewrites no id keeps the primary key. */
  lemma UpdateKeepsUnique(t: Table, r: Table)
    requires UniqueIds(t) && |r| == |t|
    requires forall i :: 0 <= i < |t| ==> r[i].id == t[i].id
    ensures UniqueIds(r)
  {
  }

  /** Matching rows and their membership in a table. */
  lemma MatchAt(t: Table, w: Where)
    ensures (forall k :: 0 <= k < |t| ==> !Matches(w, t[k])) <==> (forall j :: j in t ==> !Matches(w, j))
  {
    if forall k :: 0 <= k < |t| ==> !Matches(w, t[k]) {
      forall j | j in t ensures !Matches(w, j) {
        var k :| 0 <= k < |t| && t[k] == j;
      }
    }
  }

  /**
   * claimNextJob without interference: no claimable job means no change and no job;
   * otherwise the oldest claimable job becomes processing with one more attempt and
   * `started_at = now`, and no other row changes.
   */
  lemma ClaimNextSpec(t: Table, jobType: JobType, nowSec: Seconds)
    requires UniqueIds(t)
    ensures var r := ClaimNext(t, jobType, nowSec);
      && (r.claimed.None? <==> forall j :: j in t ==> !Matches(Claimable(jobType), j))
      && (r.claimed.None? ==> r.table == t)
      && (r.claimed.Some? ==> OldestAt(t, Claimable(jobType)).Some?
                              && IsClaimOf(t, OldestAt(t, Claimable(jobType)).value, jobType, nowSec, r))
  {
    MatchAt(t, Claimable(jobType));
    var r := ClaimNext(t, jobType, nowSec);
    match OldestAt(t, Claimable(jobType))
    case None =>
    case Some(i) =>
      UniqueFirstAt(t, i);
      assert Matches(PendingWithId(t[i].id), t[i]);
      assert r.claimed.Some?;
      forall k | 0 <= k < |t| && k != i ensures r.table[k] == t[k] {
        assert t[k].id != t[i].id;
      }
      assert r.table == t[i := r.table[i]];
      assert r.claimed.value == r.table[i];
      assert IsClaimOf(t, i, jobType, nowSec, r);
  }

  /** Row `i` is the oldest claimable job, and `r` is the claim of exactly that row. */
  ghost predicate IsClaimOf(t: Table, i: int, jobType: JobType, nowSec: Seconds, r: ClaimResult) {
    && 0 <= i < |t| && Matches(Claimable(jobType), t[i])
    && (forall k :: 0 <= k < |t| && Matches(Claimable(jobType), t[k]) ==> t[i].createdAt <= t[k].createdAt)
    && |r.table| == |t|
    && r.claimed == Some(r.table[i])
    && r.table == t[i := r.table[i]]
    && SameIdentity(r.table[i], t[i])
    && r.table[i].status == Processing && r.table[i].startedAt == Some(nowSec)
    && r.table[i].attempts == t[i].attempts + 1
    && r.table[i].error == t[i].error && r.table[i].completedAt == t[i].completedAt
  }

  /** A failed compare-and-swap answers "no job" and leaves every row as it is, claimable or not. */
  lemma LostRaceChangesNothing(t: Table, snapshot: Job, nowSec: Seconds)
    requires forall j :: j in t ==> !(j.id == snapshot.id && j.status == Pending)
    ensures CasClaim(t, snapshot, nowSec) == ClaimResult(t, None)
  {
    MatchAt(t, PendingWithId(snapshot.id));
  }

  /** Completing twice is completing once, at the later time. */
  lemma CompleteTwice(t: Table, id: JobId, n1: Seconds, n2: Seconds)
    ensures Complete(Complete(t, id, n1), id, n2) == Complete(t, id, n2)
  {
    var a := Complete(Complete(t, id, n1), id, n2);
    var b := Complete(t, id, n2);
    assert |a| == |b|;
    forall i | 0 <= i < |a| ensures a[i] == b[i] {
    }
  }

  /** The row index of the job claimNextJob takes, when one is claimable. */
  lemma ClaimNextRow(t: Table, jobType: JobType, nowSec: Seconds) returns (i: nat)
    requires UniqueIds(t)
    requires exists j :: j in t && Matches(Claimable(jobType), j)
    ensures OldestAt(t, Claimable(jobType)) == Some(i)
    ensures IsClaimOf(t, i, jobType, nowSec, ClaimNext(t, jobType, nowSec))
    ensures UniqueIds(ClaimNext(t, jobType, nowSec).table)
  {
    MatchAt(t, Claimable(jobType));
    ClaimNextSpec(t, jobType, nowSec);
    i := OldestAt(t, Claimable(jobType)).value;
    UpdateKeepsUnique(t, ClaimNext(t, jobType, nowSec).table);
  }

  /** Under the primary key, completeJob rewrites exactly the row with the id. */
  lemma CompleteOnRow(t: Table, i: nat, nowSec: Seconds)
    requires UniqueIds(t) && i < |t|
    ensures var r := Complete(t, t[i].id, nowSec);
      && |r| == |t| && r == t[i := r[i]] && UniqueIds(r)
      && r[i] == t[i].(status := Completed, completedAt := Some(nowSec))
  {
    var r := Complete(t, t[i].id, nowSec);
    forall k | 0 <= k < |t| && k != i ensures r[k] == t[k] {
      assert t[k].id != t[i].id;
    }
    assert r == t[i := r[i]];
    UpdateKeepsUnique(t, r);
  }

  /** Under the primary key, failJob decides from the row it rewrites. */
  lemma FailOnRow(t: Table, i: nat, message: string)
    requires UniqueIds(t) && i < |t|
    ensures var r := FailAttempt(t, t[i].id, message);
      && |r| == |t| && r == t[i := r[i]]
      && r[i].status == (if t[i].attempts >= t[i].maxAttempts then Failed else Pending)
      && r[i].error == Some(message) && r[i].startedAt.None?
      && r[i].attempts == t[i].attempts && r[i].completedAt == t[i].completedAt
      && SameIdentity(r[i], t[i])
  {
    UniqueFirstAt(t, i);
    var r := FailAttempt(t, t[i].id, message);
    forall k | 0 <= k < |t| && k != i ensures r[k] == t[k] {
      assert t[k].id != t[i].id;
    }
    assert r == t[i := r[i]];
  }

  /**
   * The sweep in closed form: it counts and deletes the blobs of exactly the selected
   * jobs whose blob deletion succeeds, and deletes exactly the rows with their ids.
   */
  lemma {:induction false} SweepAllClosedForm(s: Sweep, todo: Table, failing: set<string>)
    ensures SweepAll(s, todo, failing).cleaned == s.cleaned + CountSwept(todo, failing)
    ensures SweepAll(s, todo, failing).blobs == s.blobs - SweptPaths(todo, failing)
    ensures forall j :: j in SweepAll(s, todo, failing).rows <==> j in s.rows && j.id !in SweptIds(todo, failing)
    decreases |todo|
  {
    if todo != [] {
      var s1 := SweepStep(s, todo[0], failing);
      SweepAllClosedForm(s1, todo[1..], failing);
      assert forall j :: j in todo <==> j == todo[0] || j in todo[1..];
      if todo[0].sourcePath in failing {
        assert SweptPaths(todo, failing) == SweptPaths(todo[1..], failing);
        assert SweptIds(todo, failing) == SweptIds(todo[1..], failing);
      } else {
        assert SweptPaths(todo, failing) == {todo[0].sourcePath} + SweptPaths(todo[1..], failing);
        assert SweptIds(todo, failing) == {todo[0].id} + SweptIds(todo[1..], failing);
      }
    }
  }

  /**
   * cleanupFailedJobBlobs: a row disappears only if it is a failed job with
   * `completed_at` over 30 days old whose source blob was deleted; when that deletion
   * throws, the row stays and is not counted; every other row stays.
   */
  lemma CleanupFailedSpec(t: Table, blobs: map<string, Bytes>, nowMs: int, failing: set<string>)
    requires UniqueIds(t)
    ensures var r := CleanupFailed(t, blobs, nowMs, failing);
      && (forall j :: j in r.rows ==> j in t)
      && (forall j :: j in t ==>
            (j !in r.rows <==> Matches(FailedBefore(FailedCutoff(nowMs)), j) && j.sourcePath !in failing))
      && (forall j :: j in t && j !in r.rows ==> j.sourcePath !in r.blobs)
      && (forall k :: k in r.blobs <==> k in blobs && k !in SweptPaths(Select(t, FailedBefore(FailedCutoff(nowMs))), failing))
      && r.cleaned == CountSwept(Select(t, FailedBefore(FailedCutoff(nowMs))), failing)
  {
    var todo := Select(t, FailedBefore(FailedCutoff(nowMs)));
    SweepAllClosedForm(Sweep(t, blobs, 0), todo, failing);
    var r := CleanupFailed(t, blobs, nowMs, failing);
    forall j | j in t && j !in r.rows
      ensures Matches(FailedBefore(FailedCutoff(nowMs)), j) && j.sourcePath !in failing
    {
      var x :| x in todo && x.sourcePath !in failing && x.id == j.id;
      UniqueSameId(t, x, j);
    }
    forall j | j in t && j !in r.rows ensures j.sourcePath !in r.blobs {
      var x :| x in todo && x.sourcePath !in failing && x.id == j.id;
      UniqueSameId(t, x, j);
    }
  }

  /** A row the 30-day filter does not select survives the sweep. */
  lemma UnselectedRowSurvivesSweep(t: Table, blobs: map<string, Bytes>, nowMs: int, failing: set<string>, j: Job)
    requires UniqueIds(t) && j in t && !Matches(FailedBefore(FailedCutoff(nowMs)), j)
    ensures j in CleanupFailed(t, blobs, nowMs, failing).rows
  {
    var todo := Select(t, FailedBefore(FailedCutoff(nowMs)));
    SweepAllClosedForm(Sweep(t, blobs, 0), todo, failing);
    forall x | x in todo && x.sourcePath !in failing ensures x.id != j.id {
      if x.id == j.id {
        UniqueSameId(t, x, j);
      }
    }
  }

  /**
   * failJob never writes `completed_at`, and a NULL `completed_at` never satisfies the
   * 30-day filter: a job that failed through failJob alone is never swept.
   */
  lemma FailedWithoutCompletionNeverSwept(t: Table, blobs: map<string, Bytes>, nowMs: int, failing: set<string>, j: Job)
    requires UniqueIds(t) && j in t && j.completedAt.None?
    ensures j in CleanupFailed(t, blobs, nowMs, failing).rows
  {
    UnselectedRowSurvivesSweep(t, blobs, nowMs, failing, j);
  }

  /** Only one job type exists, so counting pending jobs with or without the type filter agrees. */
  lemma {:induction false} PendingCountIgnoresType(t: Table)
    ensures PendingCount(t, Some(VideoTranscode)) == PendingCount(t, None)
  {
    if t != [] {
      PendingCountIgnoresType(t[1..]);
    }
  }

  /** Recovery leaves every attempt counter as it is. */
  lemma RecoverKeepsAttempts(t: Table, nowMs: int)
    ensures |Recover(t, nowMs)| == |t|
    ensures forall i :: 0 <= i < |t| ==> Recover(t, nowMs)[i].attempts == t[i].attempts
  {
  }

  /** After recovery nothing is stuck, so a second recovery at the same time changes nothing. */
  lemma RecoverIdempotent(t: Table, nowMs: int)
    ensures forall j :: j in Recover(t, nowMs) ==> !IsStuck(j, nowMs)
    ensures Recover(Recover(t, nowMs), nowMs) == Recover(t, nowMs)
    ensures RecoveredCount(Recover(t, nowMs), nowMs) == 0
  {
    var r := Recover(t, nowMs);
    forall j | j in r ensures !IsStuck(j, nowMs) {
      var k :| 0 <= k < |r| && r[k] == j;
    }
    assert Recover(r, nowMs) == r;
  }

  // ---------------------------------------------------------------------------
  // The shared table
  // ---------------------------------------------------------------------------

  class JobTable {
    var rows: Table

    ghost predicate Valid()
      reads this
    {
      UniqueIds(rows)
    }

    constructor (initial: Table)
      requires UniqueIds(initial)
      ensures Valid() && rows == initial
    {
      rows := initial;
    }

    /** enqueueJob: the new id, or `None` when the insert is rejected. */
    method EnqueueJob(id: JobId, mediaId: MediaId, jobType: JobType, sourcePath: string, targetPath: string, nowMs: int)
      returns (r: Option<JobId>)
      requires Valid()
      modifies this
      ensures Valid()
      ensures r.Some? <==> id !in Ids(old(rows))
      ensures r.Some? ==> r.value == id && rows == Enqueue(old(rows), id, mediaId, jobType, sourcePath, targetPath, nowMs).value
      ensures r.None? ==> rows == old(rows)
    {
      var inserted := Enqueue(rows, id, mediaId, jobType, sourcePath, targetPath, nowMs);
      if inserted.None? {
        return None;
      }
      var t := rows;
      rows := inserted.value;
      forall i, k | 0 <= i < k < |rows| ensures rows[i].id != rows[k].id {
        if k == |t| {
          assert rows[i] == t[i] && rows[i] in t;
        }
      }
      r := Some(id);
    }

    /** The first phase of claimNextJob: read the oldest claimable row. */
    method SelectCandidate(jobType: JobType) returns (candidate: Option<Job>)
      ensures candidate == RowAt(rows, OldestAt(rows, Claimable(jobType)))
      ensures candidate.None? <==> forall j :: j in rows ==> !Matches(Claimable(jobType), j)
      ensures candidate.Some? ==> candidate.value in rows && Matches(Claimable(jobType), candidate.value)
      ensures candidate.Some? ==> forall j :: j in rows && Matches(Claimable(jobType), j) ==> candidate.value.createdAt <= j.createdAt
    {
      var i := OldestAt(rows, Claimable(jobType));
      MatchAt(rows, Claimable(jobType));
      candidate := RowAt(rows, i);
      if i.Some? {
        forall j | j in rows && Matches(Claimable(jobType), j) ensures rows[i.value].createdAt <= j.createdAt {
          var k :| 0 <= k < |rows| && rows[k] == j;
        }
      }
    }

    /** The second phase of claimNextJob: the conditional update. */
    method ConditionalClaim(snapshot: Job, nowMs: int) returns (claimed: Option<Job>)
      requires Valid()
      modifies this
      ensures Valid()
      ensures var r := CasClaim(old(rows), snapshot, SecondsOf(nowMs)); rows == r.table && claimed == r.claimed
    {
      var r := CasClaim(rows, snapshot, SecondsOf(nowMs));
      UpdateKeepsUnique(rows, r.table);
      rows, claimed := r.table, r.claimed;
    }

    /** claimNextJob: select, then swap; a lost swap answers `None` without trying another row. */
    method ClaimNextJob(jobType: JobType, nowMs: int) returns (claimed: Option<Job>)
      requires Valid()
      modifies this
      ensures Valid()
      ensures var r := ClaimNext(old(rows), jobType, SecondsOf(nowMs)); rows == r.table && claimed == r.claimed
    {
      var candidate := SelectCandidate(jobType);
      if candidate.None? {
        return None;
      }
      claimed := ConditionalClaim(candidate.value, nowMs);
    }

    /** completeJob */
    method CompleteJob(id: JobId, nowMs: int)
      requires Valid()
      modifies this
      ensures Valid() && rows == Complete(old(rows), id, SecondsOf(nowMs))
    {
      var r := Complete(rows, id, SecondsOf(nowMs));
      UpdateKeepsUnique(rows, r);
      rows := r;
    }

    /** failJob */
    method FailJob(id: JobId, message: string)
      requires Valid()
      modifies this
      ensures Valid() && rows == FailAttempt(old(rows), id, message)
    {
      var r := FailAttempt(rows, id, message);
      UpdateKeepsUnique(rows, r);
      rows := r;
    }

    /** recoverStuckJobs: the number of rows reset. */
    method RecoverStuckJobs(nowMs: int) returns (recovered: nat)
      requires Valid()
      modifies this
      ensures Valid() && rows == Recover(old(rows), nowMs)
      ensures recovered == RecoveredCount(old(rows), nowMs)
    {
      recovered := RecoveredCount(rows, nowMs);
      var r := Recover(rows, nowMs);
      UpdateKeepsUnique(rows, r);
      rows := r;
    }

    /** getPendingJobCount */
    method GetPendingJobCount(jobType: Option<JobType>) returns (n: nat)
      ensures n > 0 <==> exists j :: j in rows && j.status == Pending && (jobType.Some? ==> j.jobType == jobType.value)
      ensures n <= |rows| && n == PendingCount(rows, jobType)
    {
      n := PendingCount(rows, jobType);
    }

    /** getJobByMediaId */
    method GetJobByMediaId(mediaId: MediaId) returns (r: Option<Job>)
      ensures r.None? <==> forall j :: j in rows ==> j.mediaId != mediaId
      ensures r.Some? ==> r.value in rows && r.value.mediaId == mediaId
      ensures r.Some? ==> forall j :: j in rows && j.mediaId == mediaId ==> j.createdAt <= r.value.createdAt
    {
      r := JobByMedia(rows, mediaId);
    }

    /** cleanupOldJobs: the number of rows deleted. */
    method CleanupOldJobs(nowMs: int) returns (cleaned: nat)
      requires Valid()
      modifies this
      ensures Valid() && rows == CleanupOld(old(rows), nowMs)
      ensures cleaned == |old(rows)| - |rows|
    {
      var r := CleanupOld(rows, nowMs);
      DeleteKeepsUnique(rows, CompletedBefore(CompletedCutoff(nowMs)));
      cleaned := |rows| - |r|;
      rows := r;
    }

    /** cleanupFailedJobBlobs; the blob deletion throws for the keys in `failing`. */
    method CleanupFailedJobBlobs(store: BlobStore, nowMs: int, failing: set<string>) returns (cleaned: nat)
      requires Valid()
      modifies this, store
      ensures Valid()
      ensures var r := CleanupFailed(old(rows), old(store.blobs), nowMs, failing);
        rows == r.rows && store.blobs == r.blobs && cleaned == r.cleaned
    {
      var oldFailedJobs := Select(rows, FailedBefore(FailedCutoff(nowMs)));
      ghost var goal := SweepAll(Sweep(rows, store.blobs, 0), oldFailedJobs, failing);
      ghost var s := Sweep(rows, store.blobs, 0);
      cleaned := 0;
      var i := 0;
      while i < |oldFailedJobs|
        invariant 0 <= i <= |oldFailedJobs|
        invariant UniqueIds(rows)
        invariant rows == s.rows && store.blobs == s.blobs && cleaned == s.cleaned
        invariant SweepAll(s, oldFailedJobs[i..], failing) == goal
      {
        var failedJob := oldFailedJobs[i];
        SweepAllUnfold(s, oldFailedJobs, i, failing);
        s := SweepStep(s, failedJob, failing);
        var ok := store.Del(failedJob.sourcePath, failing);
        if ok {
          DeleteKeepsUnique(rows, HasId(failedJob.id));
          rows := Delete(rows, HasId(failedJob.id));
          cleaned := cleaned + 1;
        }
        i := i + 1;
      }
    }
  }
}
