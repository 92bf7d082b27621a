/**
 * The `job` table of the durable video queue: its columns, their enumerations,
 * which of them may be NULL, and the defaults an insert relies on.
 */
module JobSchema {
  import opened Wrappers

  type JobId = string
  type MediaId = string

  /**
   * A timestamp column in `mode: "timestamp"` holds whole seconds since the epoch;
   * a JavaScript `Date` is stored as the floor of its milliseconds divided by 1000.
   */
  type Seconds = int

  /** `Math.floor(ms / 1000)`: Dafny's `/` floors for a positive divisor. */
  function SecondsOf(ms: int): (s: Seconds)
    ensures s * 1000 <= ms < s * 1000 + 1000
  {
    ms / 1000
  }

  /** The `type` column admits a single value. */
  datatype JobType = VideoTranscode

  /** The `status` column; `Completed` and `Failed` are the terminal states. */
  datatype JobStatus = Pending | Processing | Completed | Failed

  const DEFAULT_STATUS: JobStatus := Pending
  const DEFAULT_ATTEMPTS: int := 0
  const DEFAULT_MAX_ATTEMPTS: int := 3

  /** One row of the `job` table; `error`, `startedAt` and `completedAt` are nullable. */
  datatype Job = Job(
    id: JobId,
    mediaId: MediaId,
    jobType: JobType,
    status: JobStatus,
    sourcePath: string,
    targetPath: string,
    error: Option<string>,
    attempts: int,
    maxAttempts: int,
    createdAt: Seconds,
    startedAt: Option<Seconds>,
    completedAt: Option<Seconds>)

  /**
   * The values an insert supplies. The NOT NULL columns without a default must be
   * given; for a column with a default `None` means "omitted"; for a nullable column
   * without a default `None` is NULL.
   */
  datatype JobValues = JobValues(
    id: JobId,
    mediaId: MediaId,
    jobType: JobType,
    sourcePath: string,
    targetPath: string,
    status: Option<JobStatus>,
    error: Option<string>,
    attempts: Option<int>,
    maxAttempts: Option<int>,
    createdAt: Option<Seconds>,
    startedAt: Option<Seconds>,
    completedAt: Option<Seconds>)

  /** The row the database stores for an insert of `v` at time `nowSec` (`unixepoch()`). */
  function Insert(v: JobValues, nowSec: Seconds): (j: Job)
  {
    Job(v.id, v.mediaId, v.jobType, v.status.GetOr(DEFAULT_STATUS), v.sourcePath, v.targetPath,
        v.error, v.attempts.GetOr(DEFAULT_ATTEMPTS), v.maxAttempts.GetOr(DEFAULT_MAX_ATTEMPTS),
        v.createdAt.GetOr(nowSec), v.startedAt, v.completedAt)
  }

  /** Values that give only the required columns. */
  predicate OnlyRequired(v: JobValues) {
    v.status.None? && v.error.None? && v.attempts.None? && v.maxAttempts.None?
    && v.createdAt.None? && v.startedAt.None? && v.completedAt.None?
  }

  /** An insert of only the required columns yields a pending job with a fresh retry budget. */
  lemma InsertDefaults(v: JobValues, nowSec: Seconds)
    requires OnlyRequired(v)
    ensures var j := Insert(v, nowSec);
      && j.status == Pending && j.attempts == 0 && j.maxAttempts == 3
      && j.createdAt == nowSec
      && j.error.None? && j.startedAt.None? && j.completedAt.None?
  {
  }

  /** A supplied value always wins over the column default. */
  lemma InsertKeepsSuppliedValues(v: JobValues, nowSec: Seconds)
    ensures var j := Insert(v, nowSec);
      && (v.status.Some? ==> j.status == v.status.value)
      && (v.attempts.Some? ==> j.attempts == v.attempts.value)
      && (v.maxAttempts.Some? ==> j.maxAttempts == v.maxAttempts.value)
      && (v.createdAt.Some? ==> j.createdAt == v.createdAt.value)
      && j.id == v.id && j.mediaId == v.mediaId && j.jobType == v.jobType
      && j.sourcePath == v.sourcePath && j.targetPath == v.targetPath
  {
  }

  /** The columns no queue operation ever rewrites. */
  predicate SameIdentity(a: Job, b: Job) {
    a.id == b.id && a.mediaId == b.mediaId && a.jobType == b.jobType
    && a.sourcePath == b.sourcePath && a.targetPath == b.targetPath
    && a.maxAttempts == b.maxAttempts && a.createdAt == b.createdAt
  }
}
