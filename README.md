# chrono-albums-2: a Dafny model of the video job queue and its rule sets

chrono-albums-2 is a photo and video album application. Uploaded videos are
transcoded to web-friendly MP4 by a durable job queue. The queue is a `job` table
with pending, processing, completed and failed jobs. A transcode task claims one
job at a time. A maintenance task recovers stuck jobs and sweeps old ones. A
start-up hook restarts processing after a server restart. An older in-process FIFO
queue with a `processing` flag does the same work without retries.

Around the queue sit small rule sets:
- the timeline's grouping of albums by year;
- upload validation on the server and in the upload form;
- HEIC detection;
- the album form's field rules;
- project roles and the permissions derived from them.

The model states these in Dafny and proves what they promise:
- The job table is a sequence of `Job` rows in table order.
- Time is an explicit `nowMs` parameter in milliseconds. Job timestamps are whole
  seconds (`JobSchema.SecondsOf`), as the table stores them.
- SQL's NULL comparison is explicit: `NULL < x` never holds.
- The blob store, the temporary directory and the `media` table are small classes
  in `Effects`. The failures of those services and of the encoder are parameters:
  `Outcome` and `Result` values, or sets of failing keys.
- Each state-changing method is specified by a function of the old state. The
  lemmas are proved about those functions.

Files:
- `wrappers.dfy`, `effects.dfy`, `strings.dfy`: shared datatypes, effects and string helpers.
- `job_schema.dfy`, `job_queue.dfy`, `queue_lifecycle.dfy`: the table, its statements, and interleavings of them.
- `transcode_task.dfy`, `maintenance_task.dfy`, `job_queue_init.dfy`: the three drivers of the queue.
- `video_transcoder.dfy`, `video_jobs.dfy`, `video_variants.dfy`: temporary files, the legacy queue, probe metadata.
- `timeline.dfy`, `media_types.dfy`, `upload.dfy`, `upload_validators.dfy`, `heic.dfy`, `albums.dfy`: the rule sets.
- `access.dfy`, `project_access.dfy`, `user.dfy`: roles and permissions.

Behaviour of the code that the model makes explicit:
- `failJob` never writes `completed_at`. The failed-job sweep filters on
  `completed_at < now - 30 days`, so a job that failed without first being
  completed is never swept. See `JobQueue.FailedWithoutCompletionNeverSwept`.
- In the transcode task, `completeJob` and the media update share one `try`. If the
  media update throws, `failJob` runs on the completed job. The job goes back to
  pending, or to failed, and keeps its `completed_at`. `processed` is still 1. See
  `TranscodeTask.RunJobOutcome`.
- The upload form's limits are 10 MiB for video and 100 MiB for images, the reverse
  of the server's. See `UploadValidators.ClientAndServerLimitsDisagree`.
- In the legacy queue, `ensureTempDir` runs outside the `try`. When creating the
  directory fails, the request is already dequeued, `processing` stays true and the
  queue stalls. See `VideoJobs.VideoQueue.ProcessQueue`.
- `completeJob` does not check the job's status. A worker whose claim was recovered
  can complete a job after another worker has failed it for good, and the job leaves
  the failed state. See `QueueLifecycle.CompleteOverridesFailure`.
- The server's size error always names the image limit in bytes followed by "MB",
  for videos too (`Upload.SizeMessage`).

## Model

| member | source | states |
|---|---|---|
| JobSchema.SecondsOf | server/db/schema/job.ts:24-28 | timestamp columns hold whole seconds: the stored second is the one containing the millisecond instant |
| JobSchema.InsertDefaults | server/db/schema/job.ts:14-28 | an insert of only the required columns stores status pending, attempts 0, maxAttempts 3, created_at the insert time and NULL error/started_at/completed_at |
| JobSchema.InsertKeepsSuppliedValues | server/db/schema/job.ts:9-28 | a supplied value wins over every column default; required columns are stored as given |
| JobQueue.Count | server/utils/job-queue.ts:149-154 | `count(*)` is zero exactly when no row matches, and never exceeds the table size |
| JobQueue.Select | server/utils/job-queue.ts:202-210 | a SELECT returns exactly the matching rows |
| JobQueue.Delete | server/utils/job-queue.ts:177-185 | a DELETE keeps exactly the non-matching rows and removes `count` rows |
| JobQueue.OldestAt | server/utils/job-queue.ts:37-48 | `ORDER BY created_at LIMIT 1`: none iff no row matches, otherwise a matching row with the smallest created_at, the first such in table order |
| JobQueue.NewestAt | server/utils/job-queue.ts:161-166 | `ORDER BY created_at DESC LIMIT 1`: none iff no match, otherwise a matching row with the largest created_at |
| JobQueue.Enqueue | server/utils/job-queue.ts:16-29 | fails iff the id is taken; otherwise appends exactly one row with the given media, type and paths, pending with the column defaults, and leaves every other row unchanged |
| JobQueue.JobTable.EnqueueJob | server/utils/job-queue.ts:16-29 | the table is Enqueue of the old table, the returned id is the new row's, and the primary key stays unique |
| JobQueue.CasClaim | server/utils/job-queue.ts:55-68 | the conditional update changes only the row with the snapshot's id that is still pending: processing, started_at now, attempts snapshot+1; with no such row it returns null and the table is unchanged |
| JobQueue.JobTable.SelectCandidate | server/utils/job-queue.ts:37-52 | the candidate is null iff no row has the type, pending status and attempts below maxAttempts; otherwise the oldest such row |
| JobQueue.JobTable.ConditionalClaim | server/utils/job-queue.ts:55-68 | the new table and the result are CasClaim's |
| JobQueue.JobTable.ClaimNextJob | server/utils/job-queue.ts:35-69 | the claim is the select followed by the conditional update, and keeps ids unique |
| JobQueue.ClaimNextSpec | server/utils/job-queue.ts:35-69 | claiming yields null iff no job is claimable; otherwise it claims the oldest claimable row, raises its attempts by one, sets processing and started_at, and changes no other row |
| JobQueue.ClaimNextRow | server/utils/job-queue.ts:37-65 | names the index of the claimed row: the oldest claimable one |
| JobQueue.LostRaceChangesNothing | server/utils/job-queue.ts:62-68 | a claim whose row is no longer pending returns null and changes nothing, without trying another candidate |
| JobQueue.Complete | server/utils/job-queue.ts:74-82 | only rows with the id change: status completed and completed_at now; attempts, error and started_at are kept |
| JobQueue.JobTable.CompleteJob | server/utils/job-queue.ts:74-82 | the table becomes Complete of the old table |
| JobQueue.CompleteTwice | server/utils/job-queue.ts:74-82 | completing twice equals completing once at the later time |
| JobQueue.CompleteOnRow | server/utils/job-queue.ts:74-82 | completing a row's id changes exactly that row |
| JobQueue.FailAttempt | server/utils/job-queue.ts:87-110 | an unknown id changes nothing; otherwise the row becomes failed iff attempts >= maxAttempts (else pending), gets the error and a NULL started_at, keeps attempts and completed_at, and other rows stay unchanged |
| JobQueue.JobTable.FailJob | server/utils/job-queue.ts:87-110 | the table becomes FailAttempt of the old table |
| JobQueue.FailOnRow | server/utils/job-queue.ts:87-110 | failing a row's id changes exactly that row: it is failed iff its attempts have reached maxAttempts, pending otherwise, with the error and a NULL started_at |
| JobQueue.Recover | server/utils/job-queue.ts:116-131 | exactly the processing rows whose started_at is before now minus 5 minutes become pending with a NULL started_at; every other row is unchanged |
| JobQueue.RecoveredCount | server/utils/job-queue.ts:133-137 | the count is zero iff no row is stuck |
| JobQueue.JobTable.RecoverStuckJobs | server/utils/job-queue.ts:116-138 | the table becomes Recover of the old one and the result is the number of stuck rows |
| JobQueue.RecoverKeepsAttempts | server/utils/job-queue.ts:121-124 | recovery never changes attempts or the number of rows |
| JobQueue.RecoverIdempotent | server/utils/job-queue.ts:116-131 | after recovery nothing is stuck, and a second recovery changes nothing and counts zero |
| JobQueue.PendingCount | server/utils/job-queue.ts:143-155 | the count is positive iff a pending row exists, of the given type when one is given |
| JobQueue.JobTable.GetPendingJobCount | server/utils/job-queue.ts:143-155 | the result is PendingCount of the table |
| JobQueue.PendingCountIgnoresType | server/utils/job-queue.ts:143-148 | as every job is a transcode job, the typed and the untyped count agree |
| JobQueue.JobByMedia | server/utils/job-queue.ts:160-169 | null iff the media item has no job; otherwise one of its jobs with the latest created_at |
| JobQueue.JobTable.GetJobByMediaId | server/utils/job-queue.ts:160-169 | the result is a newest job of the media item, or null when it has none |
| JobQueue.JobById | server/tasks/video/transcode.ts:60-64 | the lookup by id is null iff no row has the id, and under a unique key it is that row |
| JobQueue.CleanupOld | server/utils/job-queue.ts:174-185 | keeps exactly the rows that are not completed before now minus 7 days; a NULL completed_at is never before |
| JobQueue.JobTable.CleanupOldJobs | server/utils/job-queue.ts:174-192 | the table becomes CleanupOld of the old one and the result is the number of rows deleted |
| JobQueue.SweepAllClosedForm | server/utils/job-queue.ts:212-225 | the sweep loop counts, deletes the blob of, and deletes the row of exactly the selected jobs whose blob deletion succeeds |
| JobQueue.CleanupFailedSpec | server/utils/job-queue.ts:198-232 | a row leaves the table only if it was selected and its blob was deleted; no job is counted whose blob deletion failed |
| JobQueue.JobTable.CleanupFailedJobBlobs | server/utils/job-queue.ts:198-232 | the tables and blobs after the loop are CleanupFailed's, and the count is its count |
| JobQueue.UnselectedRowSurvivesSweep | server/utils/job-queue.ts:202-210 | a row the failed-job query does not select survives the sweep |
| JobQueue.FailedWithoutCompletionNeverSwept | server/utils/job-queue.ts:207-208 | a failed job with a NULL completed_at, which is every job failJob failed, is never swept, however old |
| JobQueue.DeleteKeepsUnique | server/db/schema/job.ts:9 | deleting rows keeps the primary key unique |
| JobQueue.UniqueFirstAt | server/db/schema/job.ts:9 | under the primary key, the row found by id is the only row with that id |
| QueueLifecycle.MediaDeletionCascades | server/db/schema/job.ts:10-12 | deleting a media row deletes exactly its jobs |
| QueueLifecycle.CasLeavesNoPending | server/utils/job-queue.ts:55-65 | after the conditional update no row with the claimed id is pending |
| QueueLifecycle.ApplyAllKeepsNoPending | server/utils/job-queue.ts:16-232 | only a fail, a recovery or a re-insert of the id makes a row with that id pending again |
| QueueLifecycle.SecondClaimLoses | server/utils/job-queue.ts:55-68 | of two claims of the same row, with no re-queue between them, the second returns null and changes nothing |
| QueueLifecycle.TwoWorkersOneWinner | server/utils/job-queue.ts:37-68 | two workers that select the same candidate and then update it: the first gets the row, the second gets null |
| QueueLifecycle.FreshClaimNotRecovered | server/utils/job-queue.ts:116-131 | a claim at most 5 minutes old is not recovered |
| QueueLifecycle.AbandonedClaimRecovered | server/utils/job-queue.ts:116-131 | a claim at least 5 minutes and one second old is recovered to pending with its attempts |
| QueueLifecycle.FailedStaysFailed | server/utils/job-queue.ts:99-109 | a job that failed for good stays failed under every sequence of statements other than a re-enqueue of its id or completeJob on it; claims, failures, recoveries and both sweeps never revive it |
| QueueLifecycle.CompleteOverridesFailure | server/utils/job-queue.ts:74-82 | completeJob does not look at the status: on a job failed for good it sets completed and the completion time |
| QueueLifecycle.TerminallyFailedNotClaimable | server/utils/job-queue.ts:40-46 | a job that failed for good is never claimable |
| QueueLifecycle.ClaimThenFail | server/utils/job-queue.ts:55-110 | a claim followed by a failure leaves the row with one more attempt, the error, no started_at, pending or failed by budget |
| QueueLifecycle.ThreeFailuresExhaustBudget | server/db/schema/job.ts:22-23 | a new job claimed and failed three times is failed for good with 3 attempts, and the next claim finds nothing |
| QueueLifecycle.SingleRowRound | server/utils/job-queue.ts:55-110 | a claim and a failure of a lone claimable row leave it retried with one more attempt and the error |
| QueueLifecycle.SweepRowsShrink | server/utils/job-queue.ts:198-232 | the failed-job sweep only ever removes rows |
| VideoTranscoder.InputName | server/utils/video-transcoder.ts:33 | the input temp name is the media id followed by exactly `-input.tmp` |
| VideoTranscoder.OutputName | server/utils/video-transcoder.ts:34 | the output temp name is the media id followed by exactly `-output.mp4` |
| VideoTranscoder.TempNamesDistinct | server/utils/video-transcoder.ts:33-34 | input and output names never collide, and each determines its media id |
| VideoTranscoder.TranscodeOutcome | server/utils/video-transcoder.ts:36-62 | succeeds iff the source blob exists and download, encode and upload pass; the first failing step decides the error: "Source blob not found: " and the path, else the download's error, else the encoder's, else the upload's |
| VideoTranscoder.TranscodeVideo | server/utils/video-transcoder.ts:25-68 | the result is TranscodeOutcome's; on success the encoded bytes are stored at exactly the target path, otherwise no blob changes; on every path both temp files are gone unless their unlink fails, and no other file changes |
| VideoTranscoder.Cleanup | server/utils/video-transcoder.ts:92-100 | a present file is removed unless its unlink fails; nothing else changes and nothing is raised |
| VideoTranscoder.Orphans | server/utils/video-transcoder.ts:111-125 | the orphans are exactly the files strictly older than 6 hours whose stat and unlink succeed |
| VideoTranscoder.CleanupOrphanedTempFiles | server/utils/video-transcoder.ts:106-139 | a missing directory or a failed listing removes nothing and answers 0; otherwise exactly the orphans are removed and counted |
| VideoTranscoder.RemoveOrphans | server/utils/video-transcoder.ts:117-129 | the loop over the listing removes exactly the orphans and counts each once |
| VideoTranscoder.FreshFileSurvives | server/utils/video-transcoder.ts:121 | a file at most 6 hours old is never removed |
| TranscodeTask.RecordOutcome | server/tasks/video/transcode.ts:31-73 | success completes the job and marks the media ready; any failure, including the media update's, fails the job and marks the media failed only if the job is now failed; processed is 1 iff the transcode passed |
| TranscodeTask.ProcessJob | server/tasks/video/transcode.ts:31-73 | the job and media tables follow RecordOutcome for TranscodeOutcome's result; the target blob and the temp files follow TranscodeVideo |
| TranscodeTask.Run | server/tasks/video/transcode.ts:16-89 | with nothing claimable the result is "no pending jobs" and nothing changes; otherwise exactly the claimed job is handled, processed is 0 or 1, and a run is rescheduled iff pending transcode jobs remain |
| TranscodeTask.RunJobOutcome | server/tasks/video/transcode.ts:21-73 | only the oldest claimable row changes, and gains one attempt; it ends completed on success, otherwise pending or failed by budget with the error; after a media-update failure it keeps its completed_at |
| TranscodeTask.MediaFollowsJob | server/tasks/video/transcode.ts:43-72 | the media row is ready with the target path after success, failed iff the job failed for good, and untouched while a retry is pending |
| MaintenanceTask.Run | server/tasks/jobs/maintenance.ts:15-35 | recovery, old-job cleanup, failed-job sweep, temp sweep and the untyped pending count run in this order on each other's results; the report carries each count; processing is triggered iff something was recovered |
| MaintenanceTask.MaintenanceKeepsLiveJobs | server/tasks/jobs/maintenance.ts:16-18 | every pending or processing job survives maintenance with its attempts, pending iff it was pending or stuck |
| MaintenanceTask.NoStuckJobAfterMaintenance | server/tasks/jobs/maintenance.ts:16-18 | no stuck job remains after a run |
| MaintenanceTask.LiveRowSurvivesCleanup | server/tasks/jobs/maintenance.ts:17-18 | a pending or processing row survives both sweeps |
| JobQueueInit.Init | server/plugins/job-queue-init.ts:3-23 | recovery runs before the count; the task starts iff both succeed and the untyped pending count is positive; an error changes nothing further and is not raised |
| JobQueueInit.StuckJobTriggersStart | server/plugins/job-queue-init.ts:8-18 | a job stuck at restart is pending afterwards, so the start-up trigger fires |
| VideoJobs.LegacyInputName | server/utils/video-jobs.ts:44 | the legacy input name is the media id followed by exactly `-transcode-in.mp4` |
| VideoJobs.LegacyOutputName | server/utils/video-jobs.ts:45 | the legacy output name is the media id followed by exactly `-transcode-out.mp4` |
| VideoJobs.TempNamesDisjoint | server/utils/video-jobs.ts:44-45 | the legacy names never collide with each other or with the durable transcoder's names in the shared directory, and each determines its media id |
| VideoJobs.VideoQueue.constructor | server/utils/video-jobs.ts:23-24 | the queue starts empty and idle |
| VideoJobs.VideoQueue.EnqueueTranscode | server/utils/video-jobs.ts:26-30 | the job is appended at the tail, the flag is unchanged, and a pass of processQueue is always scheduled |
| VideoJobs.VideoQueue.GetQueueStatus | server/utils/video-jobs.ts:32-34 | reports the queue length and the flag |
| VideoJobs.VideoQueue.ProcessQueue | server/utils/video-jobs.ts:36-98 | busy or empty changes nothing; otherwise exactly the head is removed; a mkdir failure leaves the flag set; else the media row is ready with the web path on success and failed on any failure, both temp files are removed unless their unlink fails, the flag is cleared and another pass is scheduled |
| VideoJobs.RunRequest | server/utils/video-jobs.ts:49-88 | the request's media update is ready iff every step including the update passes, failed otherwise; the web blob is written iff the upload passes |
| VideoVariants.FirstVideoStream | server/utils/video-variants.ts:74 | the index of the first stream whose codec_type is "video", none iff there is none |
| VideoVariants.GetVideoMetadata | server/utils/video-variants.ts:61-80 | a probe error is passed on; width and height come from the first video stream, defaulting to 1920 and 1080; duration defaults to 0 |
| VideoVariants.FirstVideoStreamDecides | server/utils/video-variants.ts:74-77 | a video stream with dimensions decides them, whatever streams follow |
| VideoVariants.Base64 | server/utils/video-variants.ts:56 | the encoding has length 4·ceil(n/3) and uses only the alphabet and padding |
| VideoVariants.ExtractVideoPoster | server/utils/video-variants.ts:31-59 | succeeds iff probe, frame grab and encoder do; the first failure is the error; the result carries the probed metadata unchanged and a preview starting with `data:image/jpeg;base64,` |
| VideoVariants.EnsureTempDir | server/utils/video-variants.ts:101-106 | the directory exists afterwards with its files unchanged, and the path is `.data/temp/videos` |
| VideoVariants.CleanupTempFile | server/utils/video-variants.ts:111-113 | the file is removed unless its unlink fails, and nothing is raised |
| Timeline.FirstMediaOf | server/api/timeline.get.ts:45-50 | the index of the first media row of the album in query order, none iff it has none |
| Timeline.BuildCoverMap | server/api/timeline.get.ts:45-50 | the cover map has an entry exactly for albums with media, and each entry is the first media row of that album |
| Timeline.CoverIsFirst | server/api/timeline.get.ts:47 | media rows after an album's first never replace its cover |
| Timeline.MediaCount | server/api/timeline.get.ts:53-62 | the grouped count is 0 iff the album has no media |
| Timeline.ResponseDescribesAlbum | server/api/timeline.get.ts:45-79 | each album's response carries the album's fields; its media count is 0 iff it has no media; it has no cover iff it has no media, and otherwise the `/m/<slug>/thumb` path and the preview of its first media row in query order |
| Timeline.WithCovers | server/api/timeline.get.ts:45-79 | the mapped list built through the cover map equals Responses |
| Timeline.OfYear | server/api/timeline.get.ts:82-87 | a year's group holds only albums of that year, and is empty iff there is none |
| Timeline.GroupByYear | server/api/timeline.get.ts:82-87 | the year map has a distinct key per year that occurs, and each year's list is the albums of that year in input order |
| Timeline.SortDescending | server/api/timeline.get.ts:90-91 | the sorted years are strictly descending and a permutation of the keys |
| Timeline.GetTimeline | server/api/timeline.get.ts:25-93 | no albums gives no years; otherwise one group per year that has albums, strictly descending, each holding exactly its year's albums in query order |
| Timeline.AlbumInItsYearOnly | server/api/timeline.get.ts:82-87 | an album is in the group of its own year and in no other |
| MediaTypes.CheckFile | shared/types/media.ts:32-45 | a file check accepts iff the size is at most the limit and the type is listed; each failing check adds its message |
| MediaTypes.ImageSchema | shared/types/media.ts:32-45 | ImageSchema accepts iff the size is at most 10 MiB and the type is an accepted image type |
| MediaTypes.VideoSchema | shared/types/media.ts:47-60 | VideoSchema accepts iff the size is at most 100 MiB and the type is an accepted video type |
| MediaTypes.FileSchema | shared/types/media.ts:62 | FileSchema accepts iff ImageSchema or VideoSchema does, and otherwise reports both issue lists |
| MediaTypes.AcceptedTypesPartition | shared/types/media.ts:3-8 | the list is the three image types followed by the three video types; image types start with `image/`, video types with `video/` |
| MediaTypes.SizeLimits | shared/types/media.ts:21-25 | the limits are 104857600 and 10485760 bytes |
| MediaTypes.AcceptedFileTypesText | shared/types/media.ts:17-19 | the accept string is the MIME list, a comma, then the extension list, joined with commas |
| MediaTypes.FileSchemaAcceptsOnlyAcceptedTypes | shared/types/media.ts:32-62 | an accepted file has an accepted type and is within the limit of its kind |
| Strings.Join | shared/types/media.ts:17-19 | join of no items is empty, of one item is that item, and starts with the first item |
| Strings.DecimalString | server/api/upload.post.ts:62 | the decimal text of a number is non-empty, all digits, and one digit iff the number is below 10 |
| Strings.DecimalStringRoundTrip | server/api/upload.post.ts:62 | the decimal text of a number reads back as that number |
| Upload.LastNamed | server/api/upload.post.ts:20-34 | the index of the last part with the name, none iff there is none |
| Upload.AccumulateParts | server/api/upload.post.ts:19-34 | the loop leaves the fields of the last "file" part (data, filename, size = byte length, type) and the text of the last "id" part |
| Upload.LastPartWins | server/api/upload.post.ts:20-34 | a later "file" or "id" part overrides the earlier one; parts of other names change nothing |
| Upload.Validate | server/api/upload.post.ts:36-64 | passes iff the type is accepted and the size is not a non-zero size above the image or video limit; otherwise the 400 with the type or the size message |
| Upload.EmptyFilePassesSizeCheck | server/api/upload.post.ts:52-58 | a size of 0 or no size never fails the size check |
| Upload.StorageKey | server/api/upload.post.ts:71 | the key is the id followed by `.jpeg`, or `undefined.jpeg` without an id, whatever the file's type |
| Upload.StorageKeyCollisions | server/api/upload.post.ts:71 | distinct ids get distinct keys, but an upload without an id shares its key with the id "undefined" |
| Upload.StoreError | server/api/upload.post.ts:74-83 | the result is always an HTTP error; it is the thrown value itself iff that was an HTTP error, and otherwise 500 "Error uploading files" |
| Upload.HandleUpload | server/api/upload.post.ts:9-85 | no parts gives 400 "No files uploaded"; a failed check returns its error with no store change; an accepted upload always has file data, stores it under StorageKey when the put succeeds, and maps a put failure through StoreError |
| Upload.SchemaAcceptedFileIsAccepted | server/api/upload.post.ts:36-64 | a file the shared FileSchema accepts, sent as the only "file" part, passes the server's checks |
| UploadValidators.FileIsTooBig | app/components/media-upload/validators.ts:5-10 | too big iff strictly above 10 MiB for a `video/` type and strictly above 100 MiB for any other; nothing up to 10 MiB is too big and everything above 100 MiB is |
| UploadValidators.LimitIsInclusive | app/components/media-upload/validators.ts:9 | a file exactly at its limit passes and one byte more does not |
| UploadValidators.OtherTypesUseImageLimit | shared/utils/upload.ts:14-15 | a non-video type is held to the image limit, which is the larger one |
| UploadValidators.ClientAndServerLimitsDisagree | shared/utils/upload.ts:14-15 | a 50 MiB MP4 is refused by the form but accepted by VideoSchema; a 50 MiB JPEG passes the form but not ImageSchema |
| Heic.HeicExamples | app/components/media-upload/heic.ts:22-24 | a `.heic` name counts whatever the type; `image/heic` with an upper-case suffix does not; `image/heif` counts whatever the name |
| Heic.ConvertHeicToJpeg | app/components/media-upload/heic.ts:1-20 | the result is the blob, or the first of the array; a rejected conversion or an empty array fails with "Conversion failed" |
| Albums.Reverse | shared/types/albums.ts:6-11 | reversal keeps the length and mirrors the indices |
| Albums.Years | shared/types/albums.ts:6-9 | the list has currentYear - 1968 + 1 entries, and entry i is currentYear - i |
| Albums.YearsAreTheRange | shared/types/albums.ts:6-9 | the list is strictly descending and holds exactly the years 1968 to the current year |
| Albums.Months | shared/types/albums.ts:11 | the list is 12 down to 1 |
| Albums.MonthsAreTheRange | shared/types/albums.ts:11 | the list holds exactly 1 to 12 |
| Albums.TitleIssues | shared/types/albums.ts:36-41 | the title has no issue iff its length is 3 to 70, and never more than one |
| Albums.MonthIssues | shared/types/albums.ts:42-48 | the month has no issue iff it is an integer from 1 to 12; a non-integer gets exactly the integer check's issue, as that check aborts the bounds; never more than one issue |
| Albums.YearIssues | shared/types/albums.ts:49-55 | the year has no issue iff it is an integer from 1968 to the current year; a non-integer gets exactly the integer check's issue, as that check aborts the bounds |
| Albums.CategoryIssues | shared/types/albums.ts:13-21 | the category has no issue iff it is one of the seven categories |
| Albums.ValidateAlbum | shared/types/albums.ts:34-59 | the params pass iff every field is valid, and otherwise every field's issues are reported in field order |
| Albums.ValidAlbumIsPickable | shared/types/albums.ts:6-11 | a valid album's month and year are entries of the pick lists |
| Access.FirstMembership | app/composables/useAccess.ts:53-55 | the index of the first membership of the project |
| Access.GetProjectRole | app/composables/useAccess.ts:52-57 | null iff no membership names the project; otherwise the role of one that does |
| Access.FirstMembershipDecides | app/composables/useAccess.ts:53-56 | the first membership decides the role; later ones are never consulted |
| Access.HasProjectAccess | app/composables/useAccess.ts:59-61 | access iff some membership names the project, iff the role is not null |
| Access.IsProjectOwner | app/composables/useAccess.ts:63-65 | owner iff the role is "owner"; ownership implies access |
| Access.AccessState.constructor | app/composables/useAccess.ts:16-19 | the state starts with no memberships and not loading |
| Access.AccessState.FetchMemberships | app/composables/useAccess.ts:22-37 | logged out clears the list; logged in, the list is the answer or empty on failure, and loading ends false |
| Access.AccessState.OnLoginChange | app/composables/useAccess.ts:40-50 | a login refetches; a logout clears the list |
| Access.EmptyMembershipsGrantNothing | app/composables/useAccess.ts:24-33 | an empty list gives no role, no access and no ownership |
| ProjectAccess.Derive | app/composables/useProjectAccess.ts:12-32 | isOwner iff the role is owner, isMember iff there is a role; the five owner-only permissions follow isOwner and the nine others isMember, so any owner-only permission implies every member permission, and no role grants nothing |
| ProjectAccess.UseProjectAccess | app/composables/useProjectAccess.ts:9-14 | isMember is project access and isOwner is project ownership |
| ProjectAccess.RolesAreOrdered | app/composables/useProjectAccess.ts:12-32 | any owner-only permission implies membership and all member permissions; a member has no owner-only permission; no role grants nothing |
| ProjectAccess.NoMembershipNoPermission | app/composables/useProjectAccess.ts:10-14 | without a membership in the project no permission is granted |
| UserSession.UserState.constructor | app/composables/useUser.ts:34-39 | the state starts with no user and no memberships, and is logged out |
| UserSession.UserState.Login | app/composables/useUser.ts:41-46 | the user becomes the mock user, the memberships the mock memberships |
| UserSession.UserState.Logout | app/composables/useUser.ts:48-53 | no user and no memberships afterwards |
| UserSession.UserState.GetProjectRole | app/composables/useUser.ts:55-60 | null iff no membership names the project; otherwise the role of one that does |
| UserSession.RolesAfterLogin | app/composables/useUser.ts:28-31 | after login project "1" is owned, project "2" is a membership, and every other project has no role |
| UserSession.NoRoleAfterLogout | app/composables/useUser.ts:48-60 | with the memberships cleared by logout no project has a role |
| Effects.BlobStore.Put | server/utils/video-transcoder.ts:58-60 | a put stores the bytes at the key iff it does not fail |
| Effects.BlobStore.Del | server/utils/job-queue.ts:216 | a delete removes the key iff it does not fail |
| Effects.TempDir.MakeDir | server/utils/video-transcoder.ts:29-31 | afterwards the directory exists with its files unchanged |
| Effects.TempDir.Write | server/utils/video-transcoder.ts:43-55 | the file holds exactly the written bytes with the write time; other files unchanged |
| Effects.TempDir.Unlink | server/utils/video-transcoder.ts:92-100 | removes the file iff it exists and its unlink does not fail, and reports whether it did |
| Effects.MediaTable.MarkReady | server/tasks/video/transcode.ts:43-49 | the rows become MarkedReady of the old rows |
| Effects.MediaTable.MarkFailed | server/tasks/video/transcode.ts:68-71 | the rows become MarkedFailed of the old rows |
| Effects.MarkedReady | server/tasks/video/transcode.ts:43-49 | the media row gets processing 0 and the web path; the set of rows is unchanged |
| Effects.MarkedFailed | server/tasks/video/transcode.ts:68-71 | the media row gets processing -1; the set of rows is unchanged |

## Left out

- The ffmpeg and ffprobe invocations and encoder options are a foreign subprocess. The encode, the probe and the frame grab are outcome parameters.
- Blob streaming and file I/O (`Readable.fromWeb`, `pipeline`, `readFile`) are not modelled. A staged temp file holds the blob's bytes; a failed download or encode leaves an empty file.
- Timers and scheduling (`setTimeout`, `setImmediate`, `runTask`) are "rescheduled" or "triggered" result flags, and the delays are constants. Real concurrency is represented by explicit interleavings of statements (`QueueLifecycle.QueueOp`), not threads.
- `Date.now()` is a parameter. The maintenance task reads one clock value for all of its statements. The transcode task reads a start time and a finish time.
- The id of a new job comes from `nanoid()`; it is a parameter, and a colliding id is rejected by the primary key.
- Failures of the database statements themselves are not modelled, except in the start-up hook (`JobQueueInit.InitFault`) and for the media update in the transcode task and the legacy queue.
- The durable transcoder's `mkdir` of the temp directory is assumed to succeed. The legacy queue's `mkdir` failure is modelled.
- `JobQueue.OldestAt`: `ORDER BY created_at LIMIT 1` with ties is resolved by table order, which SQLite does not promise.
- `Upload.Part`: `data.toString()` (UTF-8 decoding) is not modelled. Each part carries its decoded text.
- `Upload.Validate`: `ACCEPTED_MIME_TYPES.join(", ")` in the message is kept symbolic, not written out.
- `Albums.TitleIssues`: the length is counted in characters, not UTF-16 code units as JavaScript does.
- `Albums.ValidateAlbum`: the UUID format of `id` is not checked. The string-to-number coercion of month and year is not modelled; the schema receives the coerced numbers, and NaN, infinities and the safe-integer bound are left out.
- `Albums.Years` requires a current year of at least 1967, since `Array` rejects a negative length.
- `MediaTypes.FileSchema`: the "not a file" check and zod's issue objects are left out; issues are their messages.
- `VideoVariants.Base64` states only the length and the alphabet of the encoding, not its decoding.
- `Access.AccessState.FetchMemberships`: the intermediate `loading = true` state while the request is in flight is not observable in the model.
- The sharp image pipeline, the video-cleanup plugin, the DOM and geometry composables, browser-API helpers and the remaining API routes are not part of this model. Temporary files are named by their file name inside the one temporary directory, so `path.join` is not modelled.
