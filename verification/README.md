# A verified model of the job protocol between a control plane and its runners

The control plane keeps a queue of jobs in a database, leases each pending job to a
runner, receives the runner's state syncs, log chunks, watched files and artifacts, and
sweeps jobs whose runner has gone silent. The network between the two may lose, duplicate,
delay and reorder requests and lose replies. This project models both sides and proves
what holds over every run.

## How the model is laid out

| module | part of the system |
|---|---|
| `ControlPlane` | tables, stored files and one atomic step for each handler and sweep; legal runs |
| `JobInvariant`, `Fencing`, `AttemptLog`, `Leases`, `Queue` | what every run of the control plane keeps |
| `Answers`, `JobHistory` | each handler's answers in terms of the columns it looks at; each column of a row read off the run |
| `Backend`, `Handlers` | the same steps as classes updated in place: `Database`, `JobFileStore`, `App`; each method is proved to take exactly its step |
| `SyncLoop`, `SyncProtocol`, `SyncOrder` | the runner's state-sync loop, alone, composed with network and server, and the order of its messages |
| `Reporter`, `StatRace` | the file reporter and its client, alone and over a run with a racing writer |
| `LogDelivery`, `RacedDelivery`, `WatchDelivery` | the reporter composed with the server: logs over a bad network, logs with a racing writer, watched files pushed whole |
| `TaskZips`, `TaskStore` | the content-addressed zip store with its crash points; its handlers as a class |
| `TaskCache` | the runner's verified cache under concurrent callers |
| `RateLimiter`, `LikeEscape`, `JobListing`, `RunnerMetrics` | the token bucket, LIKE escaping, the paged job list, the pruned metrics |
| `Options`, `Sets` | small shared vocabulary |

`ControlPlane.Step` is a function; a run is a sequence of (clock reading, event) pairs. A
request that is duplicated, delayed or lost is its event occurring twice, late or never.
The class methods end with `ensures` clauses that equate the new state with the step
function of the old one, so the theorems about runs are theorems about the methods.

## What is assumed of runs

These are the hypotheses in `Legal`, `Possible`, `Monotone` and similar predicates:

- Clock readings do not go back, and a lease token generated for a claim was never generated before.
- A sync names one of the seven statuses that `RUNNER.md` line 71 lists, or a string that is no status.
  The code also accepts `pending`; `JobInvariant.PendingSyncIsTheOnlyBreak` gives the exact condition
  under which that breaks the lease invariant.
- Local log files only grow, and in `LogDelivery` one flush stats and reads the same bytes.
  `StatRace.SentOnceOrTwice` says exactly which bytes are sent twice otherwise.
- A log file is pushed under one spelling of its path. Chunk numbers are kept for the raw string, files for the
  normalised path.
- Uploads, updates and deletions of task definitions do not overlap; they may crash at any point.
  `TaskZips.StaleUpdateIsSafeIff` gives the exact condition for an overlapping update.
- A runner's cache directory is replaced in one step. `TaskCache.EnsureReturnsWhatTheWorkerAsked` needs no more, since
  the worker cancels its jobs only all together, at shutdown. For a caller that cancels a single coroutine while its
  install thread runs, `TaskCache.InstallStandsIff` gives the exact condition under which another is served rightly.
- Whether a pushed file can be opened and whether an upload's copy breaks off are parameters of the request, so a path
  below an already stored file is one of the cases covered.
- Ties in the claiming order may be broken by the database in any way.
- SHA-256 is an injective function; log content is a sequence of bytes.
- The control plane may die in the cleanup of a claim or retry (`Cut`), and between taking a chunk number and opening
  the file, but not inside the writing of one file, which would leave a part of it.

## Where the code does less than one might expect

- Log delivery is at most once, not exactly once: a push that is applied but reported as failed, followed by growth
  of the file, loses the grown bytes (`LogDelivery.LostAnswerWithGrowthLosesBytes`). `LogDelivery.ExactPrefixIff`
  says exactly when the stored file is the local file up to the sent offset.
- The push handler checks the path before it takes the chunk number, so that a refused path does not use the number up,
  but it opens the file afterwards. If opening fails the number is used up all the same, and the client's resend is
  dropped and acknowledged (`LogDelivery.FailedOpenLosesBytes`).
- `RUNNER.md` says the runner retries terminal syncs until they are acknowledged. The shutdown path sets the
  acknowledged flag itself after its time limit (`backend/runner/executor.py` line 278), which the model has as
  `ForceAck`. If that finds the flag clear the outcome can be lost (`SyncProtocol.GivingUpLosesTheOutcome`); if not, a
  finished loop has put its outcome in force (`SyncProtocol.FinishedLoopIsSound`).
- Full writes carry no sequence number: a late copy of an older push of a watched file puts the older content back
  (`WatchDelivery.LateCopyPutsOldContentBack`).
- A crash between a claim's commit and its cleanup leaves files of the attempt before under the new token. The replay
  theorem says what is stored then; only the next complete cleanup of the job removes it.
- A full write keeps the last `max_bytes` bytes. A `JobFileStore` constructed with the limit 0 would keep everything;
  the configuration refuses such a limit.
- An upload that turns out too large, or breaks off, also removes the artifact stored earlier under its path.
- Deleting a job leaves its chunk rows and files on disk. They never reach another job, because ids are not reused
  (`AttemptLog.StoredStateIsReplay`).
- Metrics windows longer than the store's maximum age are answered in part
  (`RunnerMetrics.LongWindowsIff`); the endpoint offers none.

## Model

| member | source | states |
|---|---|---|
| JobInvariant.RowAfterIsExact | backend/app/database.py:696-930 | for every handler and sweep, the new value of any one row is a function of that row, the event and the task definitions alone |
| JobInvariant.NewRowsAreCreated | backend/app/database.py:515-557 | a row appears only by a create, under the next id |
| JobInvariant.StoredIsLocal | backend/app/main.py:1170-1250 | only a claim, retry, push or upload naming a job touches what is stored for it |
| JobInvariant.TokenKept | backend/app/database.py:1054-1082 | a token survives a step, is cleared, or is the one this claim generated |
| JobInvariant.ClaimEffect | backend/app/database.py:1054-1092 | an answered claim took a first job under its own token at this time; any other claim changed nothing |
| JobInvariant.RowKept | backend/app/database.py:764-930 | each row keeps: out of the queue iff runner, token and expiry are all present; running rows have start and contact times and no finish; terminal rows have start <= finish |
| JobInvariant.StepKeepsInv | backend/app/services/scheduler.py:21-139 | every legal step keeps the row invariant, token uniqueness and the absence of files for future ids |
| JobInvariant.RunKeepsInv | backend/app/main.py:1016-1147 | every legal run from a good state ends in a good state |
| JobInvariant.TerminalIsLeftOnlyByRetryOrDelete | backend/app/database.py:895-898 | a terminal job stays terminal in a step iff the step is not an accepted retry or delete of it |
| JobInvariant.PendingSyncIsTheOnlyBreak | backend/app/database.py:884-925 | with unrestricted statuses, a sync keeps the invariant iff it is not the lease holder's next sync saying pending, a guard the handler could test |
| JobInvariant.PendingSyncBreaks | backend/app/database.py:895-898 | the failing input: create, claim, then a sync to pending, after which the invariant is false |
| JobHistory.RowsAreTheirHistory | backend/app/database.py:515-1092 | on every run, each job's status, start and end times, error, holder, sync number, priority, origin and snapshot are what the events and answers so far say |
| JobHistory.FinishedJobsAreDated | backend/app/database.py:907-911 | a finished job's end is the clock reading of its last accepted terminal sync, cancel, interruption or stale failure, its start that of its last claim |
| Answers.CreateAnswer | backend/app/main.py:484-537 | the next id is answered and a pending row with the request's fields added |
| Answers.ClaimAnswer | backend/app/main.py:1016-1073 | a job is answered iff held < max_jobs <= limit and the pick has the highest priority and, within it, the greatest age |
| Answers.SyncAnswer | backend/app/main.py:1076-1147 | 404, 409, 500, ignored with the stored number or applied with the sent one, each in terms of the row's columns |
| Answers.PushAnswer | backend/app/main.py:1170-1211 | 404, 409, 422, 400, dropped, 500 or applied, in this order of checks |
| Answers.UploadAnswer | backend/app/main.py:1214-1250 | 404, 409, 400, 500, 413 or the saved size |
| Answers.JobCommandAnswers | backend/app/main.py:1260-1315 | when cancel, retry, delete, priority and interruption are refused, that a refusal changes nothing, and that a delete takes the row alone |
| Answers.TailIsLongest | backend/app/services/job_files.py:93-103 | a full write keeps the longest suffix within the limit |
| Answers.PartsOfJoined | backend/app/services/job_files.py:64-71 | a path is read component by component, empty and dot components disappearing |
| Answers.EverythingStoredIsInside | backend/app/services/job_files.py:55-76 | on every run, no stored key has a parent component, an empty one or a slash in one |
| Fencing.RequestReachesOnlyItsHolder | backend/app/main.py:379-432 | a request bearing a token changes neither row nor files of any job that does not hold it |
| Fencing.UnheldIsRejected | backend/app/main.py:379-432 | such a request is answered 404 or 409 and changes nothing |
| Fencing.DeadForever | backend/app/database.py:1015-1017 | a token no job holds is held by no job after any further run |
| Fencing.FencedForever | backend/app/main.py:379-432 | once cleared or replaced, a token's requests are refused and change nothing, for ever |
| AttemptLog.LastSeqIsLargest | backend/app/database.py:932-978 | the chunk row is the largest number taken for its path since chunk rows were last cleared, absent iff there is none |
| AttemptLog.EntryReplays | backend/app/services/job_files.py:80-105 | each accepted request extends the stored files and the log of accepted requests alike |
| AttemptLog.StepReplays | backend/app/main.py:1170-1250 | one step keeps files, artifacts, chunk rows, exit code and message equal to the replay of the log |
| AttemptLog.StoredStateIsReplay | backend/app/main.py:1055-1250 | on every run, failed writes and cut-short cleanups included, what is stored for a job is the replay of the requests accepted since its last complete clear, those of the current attempt bearing its token; deleted jobs never leak into others |
| AttemptLog.CurrentEntriesBear | backend/app/main.py:379-432 | every entry since the current attempt was opened bears the token the job holds |
| AttemptLog.CutStores | backend/app/main.py:1055-1059 | a cleanup cut short leaves the earlier attempt's files but for those already removed |
| Leases.ClocksAgreeOnRuns | backend/app/database.py:989-1003 | on every run a running job expires at its last claim or heartbeat plus the lease time, its contact column is its last claim or accepted sync, and attempt counts its requeues |
| Leases.SweepRequeuesExactly | backend/app/services/scheduler.py:25-42 | the sweep requeues a running job iff its last renewal is at least the lease time old, clearing the lease and adding one attempt; others are untouched |
| Leases.StaleSweepFailsExactly | backend/app/database.py:817-849 | the stale sweep fails a running job iff its last claim or accepted sync is at least the interval old, with the sweep's time and the fixed message unless it has an error; other running jobs are untouched |
| Leases.SweepsSpareTheRest | backend/app/services/scheduler.py:21-52 | neither sweep touches a job that is not running, nor the files |
| Leases.HeartbeatRenewsExactly | backend/app/database.py:989-1003 | a heartbeat sets the expiry of the runner's running jobs and nothing else |
| Leases.AttemptCountsRequeues | backend/app/services/scheduler.py:25-42 | attempt equals the number of times the job went from running back to the queue |
| Leases.TickLeavesNoZombie | backend/app/services/scheduler.py:21-24 | after a tick reading t1 then t2, every running job's lease ends after t1 and its last contact is later than t2 - interval |
| Leases.LostClaimEnds | backend/app/database.py:817-849 | a claim whose token never syncs is not running after the first tick at claim time + interval or later, whatever heartbeats arrive |
| Queue.ClaimTakesNext | backend/app/database.py:1022-1089 | an answered claim takes a first job of the order, removes it from the queue and changes no key |
| Queue.ClaimsDrainInOrder | backend/app/database.py:1021-1089 | n claims alone return n distinct pending jobs; along them priorities never rise and within one priority creation times never fall, and no job still queued ranks before a pick |
| Queue.ClaimsFollowListing | backend/app/database.py:672-680 | with distinct keys, n claims return the first n jobs of the ordered listing |
| Queue.NeverClaimedTwice | backend/app/database.py:1005-1092 | between two claims of one job lies an expiry of its lease or an accepted retry of it |
| Queue.WaitIsBounded | backend/app/database.py:1030-1037 | a job with k rivals, joined by no new one, waits for at most k answered claims |
| Backend.NextExists | backend/app/database.py:1022-1040 | a non-empty queue has a job no other precedes |
| Backend.Database.GetJobsByStatus | backend/app/database.py:654-670 | every job with the status, each once, newest first |
| Backend.Database.GetPendingJobsOrdered | backend/app/database.py:672-680 | every pending job once; priorities never rise, and within one priority creation times never fall |
| Backend.Database.CreateJob | backend/app/database.py:515-557 | one pending row is added under the next id |
| Backend.Database.ClaimPendingJob | backend/app/database.py:1005-1092 | None iff nothing is queued; else a pending job of highest priority and, within it, greatest age gets each column of the claim, and no other row changes |
| Backend.Database.ApplyJobSync | backend/app/database.py:851-930 | duplicates and running-after-terminal are ignored, a bad status raises, all without a change; otherwise each column is stored as sent, a terminal status dated now |
| Backend.Database.RecordJobFileChunk | backend/app/database.py:932-978 | accepted iff the number exceeds the recorded one; only then is it recorded |
| Backend.Database.ResetJobFileChunkSequences | backend/app/database.py:980-987 | exactly the job's chunk rows go |
| Backend.Database.ExtendRunnerJobLeases | backend/app/database.py:989-1003 | exactly the runner's running jobs get the new expiry |
| Backend.Database.ReconcileExpiredLeases | backend/app/services/scheduler.py:25-52 | exactly the expired running jobs are requeued, and their number is returned |
| Backend.Database.ReconcileStaleJobs | backend/app/database.py:817-849 | exactly the running jobs whose last contact plus the interval has passed fail, an earlier error message stays, and their number is returned |
| Backend.Database.UpdateJobStatus | backend/app/database.py:696-745 | each column of one row takes its argument if there is one and else stays; no other row changes |
| Backend.Database.ResetJobForRetry | backend/app/database.py:764-798 | one row returns to pending with every result and lease column cleared |
| Backend.Database.DeleteJob | backend/app/database.py:682-694 | one row goes; reports whether it was there |
| Backend.JobFileStore.AppendFile | backend/app/services/job_files.py:80-86 | the content follows what the file held and no other file changes; nothing changes if the file does not open |
| Backend.JobFileStore.WriteFull | backend/app/services/job_files.py:87-105 | the file becomes a suffix of the content, within the limit when there is one; nothing changes if the file does not open |
| Backend.JobFileStore.SaveArtifact | backend/app/services/job_files.py:143-180 | fails iff the copy gets to the failing read; else stores the whole stream iff it fits; otherwise nothing is left under the path |
| Backend.JobFileStore.ClearJob | backend/app/services/job_files.py:206-213 | both trees of exactly this job go |
| Handlers.App.RequireJobLease | backend/app/main.py:379-432 | 404 for a missing job, 409 for a foreign runner or token, else no error |
| Handlers.App.ClearJobFiles | backend/app/main.py:232-235 | chunk rows and both trees of the job go together |
| Handlers.App.ClaimTask | backend/app/main.py:1016-1073 | reply and new state are those of the claim step for a first job of the queue |
| Handlers.App.IngestSync | backend/app/main.py:1076-1147 | reply and new state are those of the sync step |
| Handlers.App.PushFile | backend/app/main.py:1170-1211 | reply and new state are those of the push step, with 500 and a used-up number when the file does not open |
| Handlers.App.UploadArtifact | backend/app/main.py:1214-1250 | reply and new state are those of the upload step, with 413 when too large and 500 when the copy breaks off |
| Handlers.App.RunnerHeartbeat | backend/app/main.py:926-933 | the new state is that of the heartbeat step |
| Handlers.App.ScheduleTasks | backend/app/services/scheduler.py:21-24 | a tick is the expiry sweep followed by the stale sweep |
| Handlers.App.CancelRunningJob | backend/app/main.py:1261-1271 | reply and new state are those of the cancel step |
| Handlers.App.RetryJob | backend/app/main.py:1274-1297 | reply and new state are those of the retry step |
| Handlers.App.RemoveJob | backend/app/main.py:1300-1315 | reply and new state are those of the delete step |
| Handlers.App.BatchRetry | backend/app/main.py:1318-1337 | the state is that of retrying each id in turn; each id is reported once per request on the one list that fits it |
| Handlers.RetriesKeepRetryable | backend/app/main.py:1318-1337 | earlier retries of a batch never change which ids are accepted, skipped or unknown |
| Handlers.App.RecoverOrphanedTasks | backend/app/services/scheduler.py:103-131 | start-up recovery interrupts the listed running jobs one by one |
| Handlers.RecoveryFailsExactly | backend/app/services/scheduler.py:103-131 | it fails each running job in the list once, with the restart message, and no other |
| SyncLoop.NoLostWakeUp | backend/runner/executor.py:36-44 | while a terminal status is unsent the loop never waits on a cleared event |
| SyncLoop.AtMostOneRunningRound | backend/runner/executor.py:293-329 | after set_terminal at most one further running payload completes, one already in flight; status and details are fixed from then on |
| SyncLoop.RunningThenTerminal | backend/runner/executor.py:300-308 | what any run sends is numbered 1, 2, 3, ... and is first bare running payloads, then always the one terminal payload |
| SyncLoop.ExitsWithinTwoRounds | backend/runner/executor.py:293-329 | with no failed request and terminal payloads answered by their number or more, the loop is out within two rounds and four steps, without its timer |
| SyncLoop.SyncState.SetTerminal | backend/runner/executor.py:36-39 | stores the terminal payload and sets the event, touching nothing else |
| SyncLoop.SyncState.NextSeq | backend/runner/executor.py:41-44 | hands out consecutive numbers |
| SyncLoop.Request | backend/runner/executor.py:300-320 | the payload is the state's current one, and the run grows by taking exactly it and settling with the given answer |
| SyncLoop.Settle | backend/runner/executor.py:310-320 | the loop counts itself acknowledged iff it already was or a terminal payload's number is covered by the answer |
| SyncLoop.AwaitWake | backend/runner/executor.py:325-329 | the event is set afterwards iff it was set and the timer ended the wait; the run records which side ended it |
| SyncLoop.StateSyncLoop | backend/runner/executor.py:293-329 | the requests it sends are exactly the payloads of the run it performs, their outcomes the given ones, and it stops exactly when acknowledged |
| SyncProtocol.EveryRunIsGood | backend/app/database.py:879-927 | the invariant tying loop, network and row, kept by every move of every run |
| SyncProtocol.TerminalAckIsSound | backend/runner/executor.py:293-329 | an acknowledgement the loop saw means the row holds exactly its terminal status, exit code and message, until a retry or delete |
| SyncProtocol.FlagIsAckedOrGivenUp | backend/runner/executor.py:265-279 | the loop's flag is set iff the loop saw an acknowledgement or the shutdown path set it, and the loop is out only with it set |
| SyncProtocol.FinishedLoopIsSound | backend/runner/executor.py:265-314 | a loop that is out, without the shutdown path having found the flag clear, has its outcome in force until a retry or delete |
| SyncProtocol.GivingUpLosesTheOutcome | backend/runner/executor.py:265-279 | a run that is out with no answer at all, the terminal payload never sent and the row still running |
| SyncProtocol.TerminalDeliverySettles | backend/app/database.py:879-927 | one delivery of a terminal payload under the live lease puts it in force, whatever came before |
| SyncProtocol.TerminalAnswerCovers | backend/app/main.py:1091-1147 | under the live lease every terminal payload is answered with its number or more |
| SyncProtocol.LoopExitsWithThisServer | backend/runner/executor.py:293-329 | in the composed system, also after a cancellation or sweep, the loop is out within two rounds once terminal and answered |
| SyncProtocol.ClaimStartsTheSystem | backend/app/main.py:1016-1073 | every answered claim is a starting state of the composed system |
| SyncOrder.StepIsHappening | backend/app/database.py:817-930 | while the lease stands, every step of the control plane does to the row what its happening says |
| SyncOrder.RunIsPlay | backend/app/database.py:817-930 | so the row after any such run is the play of the run's happenings |
| SyncOrder.PlayEndsByDelivery | backend/app/database.py:879-927 | the final row is decided by whether a terminal message was delivered |
| SyncOrder.OrderDoesNotMatter | backend/app/database.py:879-927 | any delivery order with duplicates, losses and interleaved cancels and sweeps ends as in-order delivery does if it delivers a terminal message, and only then when the payload carries an exit code or message |
| SyncOrder.RunsAgree | backend/app/database.py:879-927 | any two runs from a claim on which the lease stands and a terminal message arrives leave the terminal payload's verdict |
| Reporter.TaskReporter.FlushFiles | backend/runner/reporter.py:63-140 | one pass moves each file's offset and number as specified, sends exactly the specified payloads and leaves other files alone |
| Reporter.TaskReporter.FlushFile | backend/runner/reporter.py:66-140 | the same for one file: unchanged, truncated, grown, missing or rejected |
| Reporter.FlushCases | backend/runner/reporter.py:63-121 | unchanged sends nothing, grown sends the rest under the next number, truncated sends the whole file under number 1, a watched file is sent whole without a number |
| Reporter.AcceptedAppendEndsAtOffset | backend/runner/reporter.py:69-121 | an accepted append ends at the new offset iff stat and read saw the same size |
| Reporter.GrowthBetweenStatAndReadDuplicates | backend/runner/reporter.py:69-121 | growth between stat and read is delivered twice |
| StatRace.SentOnceOrTwice | backend/runner/reporter.py:63-121 | over any run of flushes of a growing file, a byte is sent once, or twice iff it appeared between stat and read of an accepted push that another followed |
| StatRace.AgreementSendsOnce | backend/runner/reporter.py:63-121 | when stat and read always agree, every byte below the offset is sent exactly once |
| RacedDelivery.StoredSpellsThePieces | backend/app/main.py:1188-1208 | with a racing writer, each byte is stored once, or twice iff raced, and the stored file is the local one up to the last accepted read iff no earlier accepted push read past its stat |
| RacedDelivery.SpelledIsPrefixIff | backend/runner/reporter.py:92-121 | the pieces spell a prefix iff no byte was sent a second time |
| RacedDelivery.ClaimStartsTheSystem | backend/app/main.py:1055-1059 | every answered claim is a starting state of the composed system |
| WatchDelivery.StoredIsOneSend | backend/app/services/job_files.py:87-105 | a watched file's stored form is always the tail of one whole content sent under the lease, and that of the latest iff the push written last left the same tail |
| WatchDelivery.InOrderStoresLatest | backend/app/main.py:1210-1211 | unless a copy of an older push overtakes, an answered latest push is what is stored |
| WatchDelivery.LateCopyPutsOldContentBack | backend/runner/reporter.py:97-104 | a concrete run on which a late copy puts older content back, with everything answered |
| WatchDelivery.ClaimStartsTheSystem | backend/app/main.py:1055-1059 | every answered claim is a starting state of the composed system |
| Reporter.RequestWithRetry | backend/runner/client.py:133-160 | stops at the first answer that is not a 5xx or network error, else after the last attempt, with that attempt's fate |
| LogDelivery.EveryRunIsGood | backend/runner/reporter.py:63-140 | the invariant tying reporter, network and server, kept by every move of every run |
| LogDelivery.AtMostOnceInOrder | backend/app/main.py:1188-1211 | the stored file is always a concatenation of disjoint increasing slices of the local file, and the chunk row is the next number or the one before |
| LogDelivery.ExactPrefixIff | backend/app/database.py:952-954 | when the counters agree, the stored file is the local file up to the offset iff no number was used up by a failed open and every applied chunk reported as failed was acknowledged after all |
| LogDelivery.NothingFailedWasApplied | backend/runner/reporter.py:108-121 | if no push reported as failed was applied, the stored file is the local file up to the offset iff no number was used up by a failed open |
| LogDelivery.LostAnswerWithGrowthLosesBytes | backend/runner/reporter.py:90-121 | a concrete run on which bytes are lost for good while the offset moves past them |
| LogDelivery.FailedOpenLosesBytes | backend/app/main.py:1188-1208 | a concrete run on which opening fails once, nothing is reported as failed, and the bytes are lost |
| LogDelivery.ShorteningLosesBytes | backend/app/database.py:952-954 | resends dropped by number cost bytes iff some appended chunk differs from the acknowledged one |
| LogDelivery.LossesCostBytes | backend/app/main.py:1201-1208 | a number used up by a failed open costs its chunk's bytes |
| LogDelivery.OtherStepsSpareTheFile | backend/app/main.py:1170-1211 | no step but a push under this token to this path changes the file or its chunk row while the lease stands |
| LogDelivery.ClaimStartsTheSystem | backend/app/main.py:1055-1059 | every answered claim is a starting state of the composed system |
| LogDelivery.SettledSendIsOneFlush | backend/runner/reporter.py:63-140 | a send and its outcome in the composed system are one flush of the reporter |
| TaskZips.ProgramIsSafe | backend/app/main.py:562-774 | each handler, from a safe store, is safe after each of its durable sub-steps and inside each write |
| TaskZips.SessionsAreSafe | backend/app/services/task_store.py:93-114 | over any session of handlers finished or crashed anywhere, every row's zip is on disk, hashes to its name, and no two rows share one |
| TaskZips.UpdateThenDownload | backend/app/main.py:705-757 | a finished update is what the next download returns, and every other definition downloads as before |
| TaskZips.UploadThenDownload | backend/app/main.py:562-587 | a finished upload leaves one definition of exactly these bytes, new iff there was none |
| TaskZips.RemoveThenGone | backend/app/main.py:764-774 | a finished removal leaves neither row nor zip, and every other definition and zip as it was |
| TaskZips.UpdateDropsTheOldZip | backend/app/main.py:747-749 | a finished update to other bytes takes the replaced zip off the disk |
| TaskZips.RefusedKeepsAll | backend/app/main.py:705-744 | a bad zip, an unknown id, a taken or unchanged fingerprint change no row and lose no zip |
| TaskZips.StaleUpdateIsSafeIff | backend/app/main.py:707-749 | an update using an outdated fingerprint is safe iff it changes nothing or no other definition has that fingerprint |
| TaskZips.OverlappingUpdatesLoseAZip | backend/app/main.py:707-749 | two overlapping updates and an upload end with a row whose zip is gone |
| TaskStore.Tasks.WriteZipAtomically | backend/app/services/task_store.py:141-148 | writes the temporary sibling, then renames it, in this order |
| TaskStore.Tasks.IngestZip | backend/app/services/task_store.py:93-110 | a valid zip ends up under its fingerprint, an existing one is not rewritten |
| TaskStore.Tasks.DeleteZip | backend/app/services/task_store.py:112-114 | exactly the named zip goes, if present |
| TaskStore.Tasks.UploadTask | backend/app/main.py:562-587 | takes exactly the upload's sub-steps in order, keeps the store safe, answers the definition of these bytes |
| TaskStore.Tasks.UpdateTask | backend/app/main.py:705-757 | takes exactly the update's sub-steps in order, keeps the store safe, answers 404, 422, 409 or the definition as specified |
| TaskStore.Tasks.CommitUpdate | backend/app/main.py:713-749 | the half after the upload: unchanged, 409, 404 or the new fingerprint set and then the seen one's zip removed |
| TaskStore.Tasks.DeleteTask | backend/app/main.py:764-774 | 404 without a change, or the row and then its zip go and nothing else |
| TaskCache.RunsAreSound | backend/runner/task_cache.py:38-74 | under any interleaving, restarts and cancellations included, each directory hashes to its marker and exactly the lock's holder is inside |
| TaskCache.EnsureReturnsWhatWasAsked | backend/runner/task_cache.py:38-66 | when ensure returns, the directory is the extraction of bytes that hash to the asked fingerprint |
| TaskCache.DownloadsAreNeededAndAlone | backend/runner/task_cache.py:50-61 | during a download the marker differs from the asked fingerprint, and no other caller is inside for that definition |
| TaskCache.RefusalLeavesTheCache | backend/runner/task_cache.py:87-109 | ensure fails iff the download failed, the fingerprint differs or the archive is bad; the cache is unchanged and the lock free |
| TaskCache.CallersAreServed | backend/runner/task_cache.py:38-66 | a hit is served at once without the lock; a caller alone on a miss is served with what it fetched, and the lock is free again |
| TaskCache.InstallStandsIff | backend/runner/task_cache.py:61 | a finished install stands until its caller resumes iff no outlived install of another zip landed last |
| TaskCache.EnsureReturnsWhatTheWorkerAsked | backend/runner/worker.py:222-237 | the same for the worker as it is, which cancels all callers together at shutdown, with installs outliving them and restarts at any time |
| TaskCache.CancelledInstallBreaksIt | backend/runner/task_cache.py:61 | cancelling one caller of ensure mid-install, which the worker never does, can replace the directory another is given |
| TaskCache.TaskDirs.InstallZip | backend/runner/task_cache.py:111-142 | a bad archive changes nothing; a good one replaces the directory and its marker |
| TaskCache.TaskDirs.Ensure | backend/runner/task_cache.py:38-66 | for a caller alone: ready iff hit or a download that verifies and extracts; other directories are untouched |
| TaskCache.ClaimNamesTheCurrentDefinition | backend/app/database.py:1022-1052 | a claim answers with the current definition's fingerprint, or the old snapshot's if it is gone, and the row says the same |
| RateLimiter.GrantIsBounded | backend/runner/rate_limiter.py:16-34 | one acquire leaves between min(0, capacity - 1) and capacity - 1 tokens and spends one of what the time earned |
| RateLimiter.GrantIsExact | backend/runner/rate_limiter.py:16-34 | the level after an acquire is all that was earned up to the grant, cut at the capacity, less one; it sleeps iff less than a token is at hand, and for just the rest |
| RateLimiter.LevelStaysInRange | backend/runner/rate_limiter.py:16-34 | tokens stay in that range over any sequence of acquires |
| RateLimiter.RateIsBounded | backend/runner/rate_limiter.py:16-34 | grants i..j number at most max(capacity, 1) + rate * (their time span) |
| RateLimiter.IdleBucketBursts | backend/runner/rate_limiter.py:16-34 | after any calls, an idle bucket grants at one instant, without sleeping, as many calls as it has earned up to its capacity |
| RateLimiter.BurstIsReached | backend/runner/rate_limiter.py:16-34 | the bound is tight: a full bucket of n grants n calls at one instant |
| RateLimiter.WaitIsShort | backend/runner/rate_limiter.py:22-23 | no sleep is longer than it takes to earn one token from the lowest level |
| RateLimiter.AsyncTokenBucket.Acquire | backend/runner/rate_limiter.py:16-34 | the level afterwards is what was earned up to the grant, cut at the capacity, less one; no sleep when a token is at hand |
| RateLimiter.NewBucket | backend/runner/rate_limiter.py:7-14 | refused iff the rate is not positive; else a full bucket, capacity defaulting to the rate |
| LikeEscape.ThreePassesAreOne | backend/app/database.py:649-652 | the three replacements equal escaping each character once |
| LikeEscape.EscapingIsExact | backend/app/database.py:623-652 | the pattern matches a text iff the search text occurs in it, up to ASCII case |
| LikeEscape.FoldIsAsciiCase | backend/app/database.py:623-628 | two characters match iff equal or the two cases of one ASCII letter |
| LikeEscape.BackslashLastIsWrong | backend/app/database.py:649-652 | with the backslash replaced last the search matches the wrong text |
| JobListing.BeforeIsTotal | backend/app/database.py:634-645 | for every column and direction the ORDER BY is a strict total order of the rows |
| JobListing.OrderIsUnique | backend/app/database.py:634-645 | at most one listing of the same rows is in that order |
| JobListing.PagesPartitionTheResult | backend/app/database.py:601-647 | pages 1..ceil(total/size) together list each matching job once, in order |
| JobListing.PageSizes | backend/app/main.py:797-805 | every page before the last is full, the last holds the rest, later ones are empty |
| JobListing.PagesAreRanked | backend/app/database.py:634-645 | along the pages the sort column runs in the asked direction, missing values last, equal values by falling id, for each of the nine columns |
| JobListing.FilterMeans | backend/app/database.py:620-630 | a row is listed iff it has the status asked for and its names contain the texts asked for |
| JobListing.StatusTexts | backend/core/models.py:5-13 | the texts the status column sorts by |
| JobListing.TextFilterIsSubstring | backend/app/database.py:623-628 | a text filter, empty or not, means: contains, up to ASCII case |
| RunnerMetrics.RefinementAnswersWindows | backend/app/services/runner_metrics_store.py:60-74 | pruning never removes a point that a window starting at the cutoff or later asks for |
| RunnerMetrics.LongWindowsIff | backend/app/services/runner_metrics_store.py:60-74 | any window is answered as from the whole history iff everything pruned is older than it |
| RunnerMetrics.SeriesIsASubsequence | backend/app/services/runner_metrics_store.py:60-69 | a series holds each point of the window once, in order of arrival, and no other |
| RunnerMetrics.RunnerMetricsStore.PruneBucket | backend/app/services/runner_metrics_store.py:71-74 | pops from the left until the head is young enough; the bucket stays the history without an old beginning |
| RunnerMetrics.RunnerMetricsStore.Append | backend/app/services/runner_metrics_store.py:30-50 | the point joins the history; every bucket still refines its history |
| RunnerMetrics.RunnerMetricsStore.GetLatest | backend/app/services/runner_metrics_store.py:52-58 | none iff every point that ever arrived is older than the maximum age; else the last arrival |
| RunnerMetrics.RunnerMetricsStore.GetSeries | backend/app/services/runner_metrics_store.py:60-69 | for windows up to the maximum age, every point ever appended that lies in the window |

## Left out

- HTTP routing, request validation, WebSocket broadcasts, logging, admin and runner authentication.
- SQLite itself, SQL text and the text form of timestamps: tables are maps, times are integers, a transaction is one step.
- The checks a create makes on its crate and task definition, and the copying of the snapshot from it: a create event carries the snapshot it would take.
- Batch delete, batch cancel and batch priority loop over steps that are modelled one at a time.
- The `pid` and `cancel_requested` style columns no modelled step reads, runner rows, and enabling and disabling of runners.
- Legacy schema and log migration, configuration loading, system monitoring, the frontend.
- An I/O error after a pushed file was opened, which can leave part of the content in it.
- Symbolic links in stored paths: a path is resolved to its components only.
- Docker execution, crate download and extraction, artifact collection, zip and tar formats: the verdict of each is a parameter.
- Decoding of log bytes as UTF-8, which replaces sequences cut at chunk boundaries.
- The reporter's timing (interval, final flush after stop): a flush may occur at any moment.
- The sync loop's client resends and request timeouts are the network's duplicates and losses.
- SyncLoop.ExitsWithinTwoRounds: counts rounds and steps, not seconds; the shutdown time limit is not timed.
- JobListing.PagesPartitionTheResult: takes runtimes as integer differences, where the database computes them in floating point.
- RateLimiter.RateIsBounded: is over real numbers and does not model floating-point rounding.
