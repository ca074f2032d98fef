/** The HTTP handlers and the scheduler, each proved to take exactly its step. */
module Handlers {
  import opened Options
  import opened ControlPlane
  import opened Backend

  class App {
    const db: Database
    const store: JobFileStore
    const cfg: Config

    ghost predicate Valid() {
      store.fullModeMaxBytes == cfg.fullMaxBytes && store.artifactMaxBytes == cfg.artifactMaxBytes
    }

    ghost function State(): Server
      reads db, store
    {
      Server(db.jobs, db.nextJobId, db.chunkSeqs, store.files, store.artifacts, db.tasks)
    }

    constructor (config: Config)
      ensures Valid() && cfg == config && State() == FreshWorld(0).server
      ensures fresh(db) && fresh(store)
    {
      cfg := config;
      db := new Database();
      store := new JobFileStore(config.fullMaxBytes, config.artifactMaxBytes);
    }

    /** `require_job_lease`: the job, or the error the request is answered with. */
    method RequireJobLease(runner: string, id: JobId, token: Token) returns (error: Option<Reply>)
      ensures error == if Lease(State(), runner, id, token).Done? then None
                       else Some(Lease(State(), runner, id, token))
    {
      if id !in db.jobs { return Some(NotFound); }
      var job := db.jobs[id];
      if job.runnerId != Some(runner) || job.leaseToken.None? || job.leaseToken.value != token {
        return Some(Conflict);
      }
      error := None;
    }

    method ClearJobFiles(id: JobId)
      modifies db`chunkSeqs, store`files, store`artifacts
      ensures State() == Clear(old(State()), id)
    {
      db.ResetJobFileChunkSequences(id);
      store.ClearJob(id);
    }

    method ClaimTask(now: Time, runner: string, token: Token, held: nat, maxJobs: nat)
      returns (reply: Reply, ghost pick: JobId)
      requires Valid()
      modifies db`jobs, db`chunkSeqs, store`files, store`artifacts
      ensures var r := ClaimStep(cfg, old(State()), now, Claim(runner, token, held, maxJobs, pick, Whole));
              State() == r.server && reply == r.reply
      ensures Queued(old(State()).jobs) != {} ==> IsNext(old(State()).jobs, pick)
    {
      pick := 0;
      if Queued(db.jobs) != {} {
        pick := NextExists(db.jobs, Queued(db.jobs));
        assert IsNext(db.jobs, pick);
      }
      if maxJobs > cfg.claimLimit { return Unprocessable, pick; }
      if held > maxJobs { return Unprocessable, pick; }
      if held >= maxJobs { return NoContent, pick; }
      var claimed := db.ClaimPendingJob(runner, token, now, cfg.leaseTtl);
      if claimed.None? {
        assert pick !in Queued(db.jobs);
        return NoContent, pick;
      }
      pick := claimed.value;
      var id := claimed.value;
      var job := db.jobs[id];
      ClearJobFiles(id);
      reply := Claimed(id, job.leaseToken.GetOr(0), job.leaseExpiresAt.GetOr(0), job.snapshot.sha);
    }

    method IngestSync(now: Time, runner: string, id: JobId, token: Token, seqNo: int,
                      status: Option<Status>, exitCode: Option<int>, message: Option<string>)
      returns (reply: Reply)
      modifies db`jobs
      ensures var r := SyncStep(old(State()), now, Sync(runner, id, token, seqNo, status, exitCode, message));
              State() == r.server && reply == r.reply
    {
      var error := RequireJobLease(runner, id, token);
      if error.Some? { return error.value; }
      var applied := db.ApplyJobSync(id, now, seqNo, status, exitCode, message);
      match applied {
        case Missing => return NotFound;
        case Raised => return ServerError;
        case Ignored => return Synced(false, db.jobs[id].lastSyncSeq);
        case AppliedNow => return Synced(true, db.jobs[id].lastSyncSeq);
      }
    }

    /** The path is checked before the sequence number is consumed. */
    method PushFile(runner: string, id: JobId, token: Token, path: string, mode: Mode,
                    content: Bytes, chunkSeq: Option<int>, opens: bool) returns (reply: Reply)
      requires Valid()
      modifies db`chunkSeqs, store`files
      ensures var r := PushStep(cfg, old(State()), Push(runner, id, token, path, mode, content, chunkSeq, opens));
              State() == r.server && reply == r.reply
    {
      var error := RequireJobLease(runner, id, token);
      if error.Some? { return error.value; }
      if mode.Append? && chunkSeq.None? { return Unprocessable; }
      if !SafePath(path) { return BadRequest; }
      if mode.Append? {
        var shouldApply := db.RecordJobFileChunk(id, path, chunkSeq.value);
        if shouldApply {
          var appended := store.AppendFile(id, Parts(path), content, opens);
          if !appended { return ServerError; }
        }
        return FileApplied(shouldApply);
      }
      var written := store.WriteFull(id, Parts(path), content, opens);
      reply := if written then FileApplied(true) else ServerError;
    }

    /** `failsAt` is the read at which copying the upload breaks off, if it does. */
    method UploadArtifact(runner: string, id: JobId, token: Token, path: string, content: Bytes, failsAt: Option<nat>)
      returns (reply: Reply, ghost fails: bool)
      requires Valid()
      modifies store`artifacts
      ensures fails <==>
                && Lease(old(State()), runner, id, token) == Done && SafePath(path)
                && failsAt.Some? && ReadIsReached(failsAt.value, |content|, cfg.artifactMaxBytes)
      ensures var r := UploadStep(cfg, old(State()), Upload(runner, id, token, path, content, fails));
              State() == r.server && reply == r.reply
    {
      fails := false;
      var error := RequireJobLease(runner, id, token);
      if error.Some? { return error.value, false; }
      if !SafePath(path) { return BadRequest, false; }
      var result := store.SaveArtifact(id, Parts(path), content, failsAt);
      match result {
        case Written(size) => return Saved(size), false;
        case Oversized => return TooLarge, false;
        case StreamFailed => return ServerError, true;
      }
    }

    method RunnerHeartbeat(now: Time, runner: string)
      modifies db`jobs
      ensures State() == Step(cfg, old(State()), now, Heartbeat(runner)).server
    {
      db.ExtendRunnerJobLeases(runner, now, cfg.leaseTtl);
    }

    /** One scheduler tick: two sweeps, each with its own clock reading. */
    method ScheduleTasks(t1: Time, t2: Time)
      modifies db`jobs
      ensures State() == Step(cfg, Step(cfg, old(State()), t1, ExpireLeases).server, t2, ReconcileStale).server
    {
      hide ExpireAll, StaleAll, RenewAll, ClaimStep, SyncStep, PushStep, UploadStep;
      var requeued := db.ReconcileExpiredLeases(t1);
      var stale := db.ReconcileStaleJobs(t2, cfg.maxSyncInterval);
    }

    method CancelRunningJob(now: Time, id: JobId) returns (reply: Reply)
      modifies db`jobs
      ensures var r := CancelStep(old(State()), now, id); State() == r.server && reply == r.reply
    {
      if id !in db.jobs { return NotFound; }
      if !db.jobs[id].status.Running? { return BadRequest; }
      db.EndJob(id, Cancelled, now, None);
      reply := Done;
    }

    method RetryJob(id: JobId) returns (reply: Reply)
      modifies db`jobs, db`chunkSeqs, store`files, store`artifacts
      ensures var r := RetryStep(old(State()), id, Whole); State() == r.server && reply == r.reply
    {
      if id !in db.jobs { return NotFound; }
      if db.jobs[id].status.Running? { return BadRequest; }
      if db.jobs[id].taskId !in db.tasks { return BadRequest; }
      db.ResetJobForRetry(id);
      ClearJobFiles(id);
      reply := Done;
    }

    method RemoveJob(id: JobId) returns (reply: Reply)
      modifies db`jobs
      ensures var r := DeleteStep(old(State()), id); State() == r.server && reply == r.reply
    {
      if id !in db.jobs { return NotFound; }
      if db.jobs[id].status.Running? { return BadRequest; }
      var deleted := db.DeleteJob(id);
      reply := Done;
    }

    /** The batch endpoint is the single retry on every id in turn. */
    method BatchRetry(ids: seq<JobId>) returns (report: BatchReport)
      modifies db`jobs, db`chunkSeqs, store`files, store`artifacts
      ensures State() == RetryAll(old(State()), ids)
      ensures Reports(old(State()), ids, report)
    {
      hide RetryAll, RetryStep, Reports, Retryable;
      report := BatchReport([], [], []);
      RetryNone(State());
      NothingReported(State());
      for i := 0 to |ids|
        invariant State() == RetryAll(old(State()), ids[..i])
        invariant Reports(old(State()), ids[..i], report)
      {
        RetryOneMore(old(State()), ids[..i], ids[i]);
        RetriesKeepRetryable(old(State()), ids[..i]);
        RetryAnswers(State(), ids[i]);
        assert ids[..i + 1] == ids[..i] + [ids[i]];
        var reply := RetryJob(ids[i]);
        ReportOneMore(old(State()), ids[..i], report, ids[i], reply);
        report := Filed(report, reply, ids[i]);
      }
      assert ids[..|ids|] == ids;
    }

    /** Start-up recovery: the rows listed as running are failed one by one, each with its own clock reading. */
    method RecoverOrphanedTasks(clock: seq<Time>) returns (listed: seq<JobId>)
      requires |clock| >= |db.jobs|
      modifies db`jobs
      ensures Lists(listed, old(State()).jobs, Running) && |listed| <= |clock|
      ensures State() == InterruptAll(old(State()), listed, clock, RESTART_MESSAGE)
    {
      hide InterruptAll;
      listed := db.GetJobsByStatus(Running);
      InterruptNone(State(), clock, RESTART_MESSAGE);
      for i := 0 to |listed|
        invariant State() == InterruptAll(old(State()), listed[..i], clock, RESTART_MESSAGE)
        invariant forall k | i <= k < |listed| :: listed[k] in db.jobs && db.jobs[listed[k]].status.Running?
      {
        InterruptOneMore(old(State()), listed[..i], clock, RESTART_MESSAGE, listed[i]);
        db.EndJob(listed[i], Failed, clock[i], Some(RESTART_MESSAGE));
        assert listed[..i + 1] == listed[..i] + [listed[i]];
      }
      assert listed[..|listed|] == listed;
    }
  }

  const RESTART_MESSAGE := "Job interrupted by server restart"

  function RetryAll(s: Server, ids: seq<JobId>): Server {
    if ids == [] then s else RetryStep(RetryAll(s, ids[..|ids| - 1]), ids[|ids| - 1], Whole).server
  }

  function InterruptAll(s: Server, ids: seq<JobId>, clock: seq<Time>, reason: string): Server
    requires |ids| <= |clock|
  {
    if ids == [] then s
    else
      var n := |ids| - 1;
      InterruptStep(InterruptAll(s, ids[..n], clock, reason), clock[n], ids[n], reason).server
  }

  datatype BatchReport = BatchReport(retried: seq<JobId>, skipped: seq<JobId>, notFound: seq<JobId>)

  /** The jobs a retry resets; a batch of retries does not change which they are. */
  predicate Retryable(s: Server, id: JobId) {
    id in s.jobs && !s.jobs[id].status.Running? && s.jobs[id].taskId in s.defs
  }

  /** Each id is on one list as often as it was asked for, and that list is the right one. */
  ghost predicate Reports(s: Server, ids: seq<JobId>, r: BatchReport) {
    && multiset(r.retried) + multiset(r.skipped) + multiset(r.notFound) == multiset(ids)
    && (forall id | id in r.retried :: Retryable(s, id))
    && (forall id | id in r.skipped :: id in s.jobs && !Retryable(s, id))
    && (forall id | id in r.notFound :: id !in s.jobs)
  }

  function Filed(r: BatchReport, reply: Reply, id: JobId): BatchReport {
    if reply == NotFound then r.(notFound := r.notFound + [id])
    else if reply == BadRequest then r.(skipped := r.skipped + [id])
    else r.(retried := r.retried + [id])
  }

  lemma NothingReported(s: Server)
    ensures Reports(s, [], BatchReport([], [], []))
  {
  }

  lemma ReportOneMore(s: Server, ids: seq<JobId>, r: BatchReport, id: JobId, reply: Reply)
    requires Reports(s, ids, r) && reply in {NotFound, BadRequest, Done}
    requires (reply == NotFound <==> id !in s.jobs) && (reply == Done <==> Retryable(s, id))
    ensures Reports(s, ids + [id], Filed(r, reply, id))
  {
    hide Retryable;
  }

  lemma RetryAnswers(s: Server, id: JobId)
    ensures var r := RetryStep(s, id, Whole);
            && r.reply in {NotFound, BadRequest, Done}
            && (r.reply == NotFound <==> id !in s.jobs)
            && (r.reply == Done <==> Retryable(s, id))
            && r.server.jobs.Keys == s.jobs.Keys
            && (forall k :: Retryable(r.server, k) <==> Retryable(s, k))
  {
  }

  lemma {:induction false} RetriesKeepRetryable(s: Server, ids: seq<JobId>)
    ensures RetryAll(s, ids).jobs.Keys == s.jobs.Keys
    ensures forall k :: Retryable(RetryAll(s, ids), k) <==> Retryable(s, k)
    decreases |ids|
  {
    hide RetryStep, Retryable;
    if ids != [] {
      RetriesKeepRetryable(s, ids[..|ids| - 1]);
      RetryAnswers(RetryAll(s, ids[..|ids| - 1]), ids[|ids| - 1]);
    }
  }

  lemma RetryNone(s: Server)
    ensures RetryAll(s, []) == s
  {
  }

  lemma RetryOneMore(s: Server, ids: seq<JobId>, id: JobId)
    ensures RetryAll(s, ids + [id]) == RetryStep(RetryAll(s, ids), id, Whole).server
  {
    assert (ids + [id])[..|ids + [id]| - 1] == ids;
  }

  lemma InterruptNone(s: Server, clock: seq<Time>, reason: string)
    ensures InterruptAll(s, [], clock, reason) == s
  {
  }

  lemma InterruptOneMore(s: Server, ids: seq<JobId>, clock: seq<Time>, reason: string, id: JobId)
    requires |ids| < |clock|
    ensures InterruptAll(s, ids + [id], clock, reason) ==
            InterruptStep(InterruptAll(s, ids, clock, reason), clock[|ids|], id, reason).server
  {
    assert (ids + [id])[..|ids + [id]| - 1] == ids;
  }

  /** Recovery over any listing fails the running jobs in it, each once, and leaves the others alone. */
  lemma {:induction false} RecoveryFailsExactly(s: Server, ids: seq<JobId>, clock: seq<Time>, reason: string, id: JobId)
    requires |ids| <= |clock| && id in s.jobs
    ensures var t := InterruptAll(s, ids, clock, reason);
            && id in t.jobs
            && (if s.jobs[id].status.Running? && id in ids
                then exists i | 0 <= i < |ids| ::
                       && ids[i] == id
                       && t.jobs[id] == s.jobs[id].(status := Failed, finishedAt := Some(clock[i]),
                                                    errorMessage := Some(reason))
                else t.jobs[id] == s.jobs[id])
  {
    if ids != [] {
      var n := |ids| - 1;
      RecoveryFailsExactly(s, ids[..n], clock, reason, id);
      assert forall i | 0 <= i < n :: ids[..n][i] == ids[i];
    }
  }
}
