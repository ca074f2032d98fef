/**
 The columns of a job row, read off the run: what was last done to the job, and when.
 Nothing here uses the functions that say how a step changes a row.
 */
module JobHistory {
  import opened Options
  import opened ControlPlane
  import opened JobInvariant
  import opened Leases

  // ---------------------------------------------------------------- what happened to a job

  predicate Born(e: Event, reply: Reply, id: JobId) {
    e.Create? && reply == Created(id)
  }

  predicate Taken(e: Event, reply: Reply, id: JobId) {
    e.Claim? && reply.Claimed? && reply.job == id
  }

  predicate Reset(e: Event, reply: Reply, id: JobId) {
    e.Retry? && e.job == id && reply == Done
  }

  predicate Reported(e: Event, reply: Reply, id: JobId) {
    e.Sync? && e.job == id && reply.Synced? && reply.applied
  }

  predicate Stopped(e: Event, reply: Reply, id: JobId) {
    e.Cancel? && e.job == id && reply == Done
  }

  predicate Broken(e: Event, reply: Reply, id: JobId) {
    e.Interrupt? && e.job == id && reply == Done
  }

  predicate Due(since: Option<Time>, span: int, now: Time) {
    since.Some? && since.value + span <= now
  }

  /** The last action of the run fails the job as silent. */
  predicate GoneStale(cfg: Config, w: World, tr: Trace, id: JobId)
    requires tr != []
    decreases |tr|, 0
  {
    && Last(tr).event.ReconcileStale?
    && StatusOf(cfg, w, Front(tr), id) == Some(Running)
    && Due(LastContact(cfg, w, Front(tr), id), cfg.maxSyncInterval, Last(tr).now)
  }

  /** The last action of the run takes the job's lease away. */
  predicate Expired(cfg: Config, w: World, tr: Trace, id: JobId)
    requires tr != []
    decreases |tr|, 0
  {
    && Last(tr).event.ExpireLeases?
    && StatusOf(cfg, w, Front(tr), id) == Some(Running)
    && Due(LastRenewal(cfg, w, Front(tr), id), cfg.leaseTtl, Last(tr).now)
  }

  function LastReply(cfg: Config, w: World, tr: Trace): Reply
    requires tr != []
  {
    ReplyTo(cfg, Run(cfg, w, Front(tr)), Last(tr))
  }

  // ---------------------------------------------------------------- the columns

  /** None as long as there is no such job. */
  function StatusOf(cfg: Config, w: World, tr: Trace, id: JobId): Option<Status>
    decreases |tr|, 1
  {
    if tr == [] then None
    else
      var e, reply := Last(tr).event, LastReply(cfg, w, tr);
      if Born(e, reply, id) || Reset(e, reply, id) || Expired(cfg, w, tr, id) then Some(Pending)
      else if e.Delete? && e.job == id && reply == Done then None
      else if Taken(e, reply, id) then Some(Running)
      else if Reported(e, reply, id) then e.status
      else if Stopped(e, reply, id) then Some(Cancelled)
      else if Broken(e, reply, id) then Some(Failed)
      else if GoneStale(cfg, w, tr, id) then Some(RunnerFailed)
      else StatusOf(cfg, w, Front(tr), id)
  }

  /** When the job was last claimed, unless it was retried since. */
  function StartOf(cfg: Config, w: World, tr: Trace, id: JobId): Option<Time>
    decreases |tr|
  {
    if tr == [] then None
    else
      var e, reply := Last(tr).event, LastReply(cfg, w, tr);
      if Taken(e, reply, id) then Some(Last(tr).now)
      else if Born(e, reply, id) || Reset(e, reply, id) then None
      else StartOf(cfg, w, Front(tr), id)
  }

  /** When the job last came to an end since it was last claimed or retried. */
  function EndOf(cfg: Config, w: World, tr: Trace, id: JobId): Option<Time>
    decreases |tr|
  {
    if tr == [] then None
    else
      var e, reply := Last(tr).event, LastReply(cfg, w, tr);
      if Born(e, reply, id) || Taken(e, reply, id) || Reset(e, reply, id) then None
      else if || (Reported(e, reply, id) && e.status != Some(Running))
              || Stopped(e, reply, id) || Broken(e, reply, id) || GoneStale(cfg, w, tr, id)
        then Some(Last(tr).now)
      else EndOf(cfg, w, Front(tr), id)
  }

  /** The last interruption's reason, or the stale sweep's message where there was none. */
  function ErrorOf(cfg: Config, w: World, tr: Trace, id: JobId): Option<string>
    decreases |tr|
  {
    if tr == [] then None
    else
      var e, reply, earlier := Last(tr).event, LastReply(cfg, w, tr), ErrorOf(cfg, w, Front(tr), id);
      if Born(e, reply, id) || Taken(e, reply, id) || Reset(e, reply, id) then None
      else if Broken(e, reply, id) then Some(e.reason)
      else if GoneStale(cfg, w, tr, id) && earlier.None? then Some("Runner stopped sending state sync updates")
      else earlier
  }

  /** The runner and token of the last claim, unless the lease was taken away since. */
  function HolderOf(cfg: Config, w: World, tr: Trace, id: JobId): Option<(string, Token)>
    decreases |tr|
  {
    if tr == [] then None
    else
      var e, reply := Last(tr).event, LastReply(cfg, w, tr);
      if Taken(e, reply, id) then Some((e.runner, e.token))
      else if Born(e, reply, id) || Reset(e, reply, id) || Expired(cfg, w, tr, id) then None
      else HolderOf(cfg, w, Front(tr), id)
  }

  /** The number of the last accepted sync of this attempt. */
  function SyncedUpTo(cfg: Config, w: World, tr: Trace, id: JobId): int
    decreases |tr|
  {
    if tr == [] then 0
    else
      var e, reply := Last(tr).event, LastReply(cfg, w, tr);
      if Born(e, reply, id) || Taken(e, reply, id) || Reset(e, reply, id) then 0
      else if Reported(e, reply, id) then e.seqNo
      else SyncedUpTo(cfg, w, Front(tr), id)
  }

  function PriorityOf(cfg: Config, w: World, tr: Trace, id: JobId): int
    decreases |tr|
  {
    if tr == [] then 0
    else
      var e, reply := Last(tr).event, LastReply(cfg, w, tr);
      if Born(e, reply, id) then 0
      else if e.SetPriority? && e.job == id && reply == Done then e.priority
      else PriorityOf(cfg, w, Front(tr), id)
  }

  /** The create that made the job, with the time it did. */
  function BirthOf(cfg: Config, w: World, tr: Trace, id: JobId): Option<(Event, Time)>
    decreases |tr|
  {
    if tr == [] then None
    else if Born(Last(tr).event, LastReply(cfg, w, tr), id) then Some((Last(tr).event, Last(tr).now))
    else BirthOf(cfg, w, Front(tr), id)
  }

  /** The definition the job runs: as created, then as each claim found it. */
  function SnapshotOf(cfg: Config, w: World, tr: Trace, id: JobId): Option<TaskDef>
    decreases |tr|
  {
    if tr == [] then None
    else
      var e, reply, earlier := Last(tr).event, LastReply(cfg, w, tr), SnapshotOf(cfg, w, Front(tr), id);
      var defs, birth := Run(cfg, w, Front(tr)).server.defs, BirthOf(cfg, w, Front(tr), id);
      if Born(e, reply, id) then Some(e.snapshot)
      else if Taken(e, reply, id) && earlier.Some? && birth.Some? && birth.value.0.Create? &&
              birth.value.0.taskId in defs && defs[birth.value.0.taskId].sha != earlier.value.sha
        then Some(defs[birth.value.0.taskId])
      else earlier
  }

  // ---------------------------------------------------------------- the rows are their history

  ghost predicate Timed(cfg: Config, w: World, tr: Trace, id: JobId, j: Job) {
    && StatusOf(cfg, w, tr, id) == Some(j.status)
    && j.startedAt == StartOf(cfg, w, tr, id)
    && j.finishedAt == EndOf(cfg, w, tr, id)
    && j.errorMessage == ErrorOf(cfg, w, tr, id)
  }

  ghost predicate Assigned(cfg: Config, w: World, tr: Trace, id: JobId, j: Job) {
    && (HolderOf(cfg, w, tr, id).None? ==> j.runnerId.None? && j.leaseToken.None?)
    && (HolderOf(cfg, w, tr, id).Some? ==>
          && j.runnerId == Some(HolderOf(cfg, w, tr, id).value.0)
          && j.leaseToken == Some(HolderOf(cfg, w, tr, id).value.1))
    && j.lastSyncSeq == SyncedUpTo(cfg, w, tr, id)
    && j.priority == PriorityOf(cfg, w, tr, id)
  }

  ghost predicate Described(cfg: Config, w: World, tr: Trace, id: JobId, j: Job) {
    && BirthOf(cfg, w, tr, id).Some?
    && (var (birth, born) := BirthOf(cfg, w, tr, id).value;
        && birth.Create?
        && j.crateName == birth.crateName && j.version == birth.version && j.taskId == birth.taskId
        && j.createdAt == born)
    && SnapshotOf(cfg, w, tr, id) == Some(j.snapshot)
  }

  ghost predicate Told(cfg: Config, w: World, tr: Trace, id: JobId) {
    var s := Run(cfg, w, tr).server;
    if id in s.jobs then
      && Timed(cfg, w, tr, id, s.jobs[id])
      && Assigned(cfg, w, tr, id, s.jobs[id])
      && Described(cfg, w, tr, id, s.jobs[id])
    else StatusOf(cfg, w, tr, id).None?
  }

  // ---------------------------------------------------------------- one step

  predicate ExpiresNow(e: Event, now: Time, j: Job) {
    e.ExpireLeases? && j.status == Running && Due(j.leaseExpiresAt, 0, now)
  }

  predicate StaleNow(cfg: Config, e: Event, now: Time, j: Job) {
    e.ReconcileStale? && j.status == Running && Due(j.lastStateSyncAt, cfg.maxSyncInterval, now)
  }

  /** What the answer to each event says of an existing row. */
  lemma AnswersTell(cfg: Config, s: Server, now: Time, e: Event, id: JobId)
    requires id in s.jobs && id < s.nextId
    ensures var j, reply := s.jobs[id], Step(cfg, s, now, e).reply;
            && !Born(e, reply, id)
            && (Taken(e, reply, id) <==> e.Claim? && e.pick == id && reply.Claimed?)
            && (Reset(e, reply, id) <==> e.Retry? && e.job == id && !j.status.Running? && j.taskId in s.defs)
            && (Stopped(e, reply, id) <==> e.Cancel? && e.job == id && j.status.Running?)
            && (Broken(e, reply, id) <==> e.Interrupt? && e.job == id && j.status.Running?)
            && (e.Delete? && e.job == id ==> (reply == Done <==> !j.status.Running?))
            && (e.SetPriority? && e.job == id ==> (reply == Done <==> j.status.Pending?))
            && (Reported(e, reply, id) <==>
                  && e.Sync? && e.job == id && j.runnerId == Some(e.runner) && j.leaseToken == Some(e.token)
                  && SyncRow(j, now, e.seqNo, e.status, e.exitCode, e.message).Applied?)
  {
    hide PushStep, UploadStep, SyncRow;
    if e.Claim? { hide ClaimStep; ClaimEffect(cfg, s, now, e); }
  }

  lemma StepTimes(cfg: Config, s: Server, now: Time, e: Event, id: JobId)
    requires id in s.jobs && id < s.nextId && (e.Sync? ==> e.status != Some(Pending))
    requires LeaseOk(s.jobs[id])
    ensures var j, r := s.jobs[id], Step(cfg, s, now, e);
            var t, reply := r.server, r.reply;
            && (id in t.jobs <==> !(e.Delete? && e.job == id && reply == Done))
            && (id in t.jobs ==>
                  && t.jobs[id].status == (if Reset(e, reply, id) || ExpiresNow(e, now, j) then Pending
                                           else if Taken(e, reply, id) then Running
                                           else if Reported(e, reply, id) then e.status.GetOr(Pending)
                                           else if Stopped(e, reply, id) then Cancelled
                                           else if Broken(e, reply, id) then Failed
                                           else if StaleNow(cfg, e, now, j) then RunnerFailed
                                           else j.status)
                  && (Reported(e, reply, id) ==> e.status.Some?))
  {
    hide ClaimStep, SyncStep, PushStep, UploadStep, CancelStep, RetryStep, DeleteStep, SetPriorityStep, InterruptStep,
         CreateStep, RenewAll, ExpireAll, StaleAll;
    RowAfterIsExact(cfg, s, now, e, id);
    AnswersTell(cfg, s, now, e, id);
  }

  lemma StepMarks(cfg: Config, s: Server, now: Time, e: Event, id: JobId)
    requires id in s.jobs && id < s.nextId && (e.Sync? ==> e.status != Some(Pending))
    requires LeaseOk(s.jobs[id]) && TimesOk(s.jobs[id], now) && id in Step(cfg, s, now, e).server.jobs
    requires s.jobs[id].status.Pending? || s.jobs[id].startedAt.Some?
    ensures var j, r := s.jobs[id], Step(cfg, s, now, e);
            var j', reply := r.server.jobs[id], r.reply;
            && j'.startedAt == (if Taken(e, reply, id) then Some(now) else if Reset(e, reply, id) then None
                                else j.startedAt)
            && j'.finishedAt == (if Taken(e, reply, id) || Reset(e, reply, id) then None
                                 else if || (Reported(e, reply, id) && e.status != Some(Running))
                                         || Stopped(e, reply, id) || Broken(e, reply, id) || StaleNow(cfg, e, now, j)
                                   then Some(now)
                                 else j.finishedAt)
            && j'.errorMessage == (if Taken(e, reply, id) || Reset(e, reply, id) then None
                                   else if Broken(e, reply, id) then Some(e.reason)
                                   else if StaleNow(cfg, e, now, j) && j.errorMessage.None?
                                     then Some("Runner stopped sending state sync updates")
                                   else j.errorMessage)
  {
    hide ClaimStep, SyncStep, PushStep, UploadStep, CancelStep, RetryStep, DeleteStep, SetPriorityStep, InterruptStep,
         CreateStep, RenewAll, ExpireAll, StaleAll;
    RowAfterIsExact(cfg, s, now, e, id);
    AnswersTell(cfg, s, now, e, id);
  }

  lemma StepAssigns(cfg: Config, s: Server, now: Time, e: Event, id: JobId)
    requires id in s.jobs && id < s.nextId && id in Step(cfg, s, now, e).server.jobs
    ensures var j, r := s.jobs[id], Step(cfg, s, now, e);
            var j', reply := r.server.jobs[id], r.reply;
            && (Taken(e, reply, id) ==> j'.runnerId == Some(e.runner) && j'.leaseToken == Some(e.token))
            && (Reset(e, reply, id) || ExpiresNow(e, now, j) ==> j'.runnerId.None? && j'.leaseToken.None?)
            && (!Taken(e, reply, id) && !Reset(e, reply, id) && !ExpiresNow(e, now, j) ==>
                  j'.runnerId == j.runnerId && j'.leaseToken == j.leaseToken)
            && j'.lastSyncSeq == (if Taken(e, reply, id) || Reset(e, reply, id) then 0
                                  else if Reported(e, reply, id) then e.seqNo else j.lastSyncSeq)
            && j'.priority == (if e.SetPriority? && e.job == id && reply == Done then e.priority else j.priority)
  {
    hide ClaimStep, SyncStep, PushStep, UploadStep, CancelStep, RetryStep, DeleteStep, SetPriorityStep, InterruptStep,
         CreateStep, RenewAll, ExpireAll, StaleAll;
    RowAfterIsExact(cfg, s, now, e, id);
    AnswersTell(cfg, s, now, e, id);
  }

  lemma StepDescribes(cfg: Config, s: Server, now: Time, e: Event, id: JobId)
    requires id in s.jobs && id < s.nextId && id in Step(cfg, s, now, e).server.jobs
    ensures var j, r := s.jobs[id], Step(cfg, s, now, e);
            var j' := r.server.jobs[id];
            && j'.crateName == j.crateName && j'.version == j.version && j'.taskId == j.taskId
            && j'.createdAt == j.createdAt
            && j'.snapshot == (if Taken(e, r.reply, id) && j.taskId in s.defs && s.defs[j.taskId].sha != j.snapshot.sha
                               then s.defs[j.taskId] else j.snapshot)
  {
    hide ClaimStep, SyncStep, PushStep, UploadStep, CancelStep, RetryStep, DeleteStep, SetPriorityStep, InterruptStep,
         CreateStep, RenewAll, ExpireAll, StaleAll;
    RowAfterIsExact(cfg, s, now, e, id);
    AnswersTell(cfg, s, now, e, id);
  }

  /** A job that is not there is only ever created. */
  lemma AbsentIsOnlyBorn(cfg: Config, s: Server, now: Time, e: Event, id: JobId)
    requires id !in s.jobs
    ensures var reply := Step(cfg, s, now, e).reply;
            && !Taken(e, reply, id) && !Reset(e, reply, id) && !Reported(e, reply, id)
            && !Stopped(e, reply, id) && !Broken(e, reply, id)
            && (Born(e, reply, id) <==> e.Create? && id == s.nextId)
  {
    hide PushStep, UploadStep;
  }

  // ---------------------------------------------------------------- all runs

  lemma StepTells(cfg: Config, start: Time, tr: Trace, id: JobId)
    requires tr != [] && LegalRun(cfg, FreshWorld(start), tr) && Told(cfg, FreshWorld(start), Front(tr), id)
    requires id in Run(cfg, FreshWorld(start), Front(tr)).server.jobs
    ensures Told(cfg, FreshWorld(start), tr, id)
  {
    hide Step, Assigned, Described, Inv;
    var w := FreshWorld(start);
    var before, a := Run(cfg, w, Front(tr)), Last(tr);
    RunKeepsInv(cfg, w, Front(tr));
    GoodRow(before, id);
    StepTimes(cfg, before.server, a.now, a.event, id);
    if id in Run(cfg, w, tr).server.jobs {
      TimedGoesOn(cfg, start, tr, id);
      AssignedGoesOn(cfg, start, tr, id);
      DescribedGoesOn(cfg, start, tr, id);
    } else {
      DeletedIsGone(cfg, w, tr, id);
    }
  }

  lemma DeletedIsGone(cfg: Config, w: World, tr: Trace, id: JobId)
    requires tr != []
    requires Last(tr).event.Delete? && Last(tr).event.job == id && LastReply(cfg, w, tr) == Done
    ensures StatusOf(cfg, w, tr, id).None?
  {
    hide Step;
  }

  lemma AbsentStaysAbsent(cfg: Config, w: World, tr: Trace, id: JobId)
    requires tr != [] && StatusOf(cfg, w, Front(tr), id).None?
    requires var e, reply := Last(tr).event, LastReply(cfg, w, tr);
             && !Born(e, reply, id) && !Taken(e, reply, id) && !Reset(e, reply, id) && !Reported(e, reply, id)
             && !Stopped(e, reply, id) && !Broken(e, reply, id)
    ensures StatusOf(cfg, w, tr, id).None?
  {
    hide Step;
  }

  lemma GoodRow(w: World, id: JobId)
    requires Inv(w) && id in w.server.jobs
    ensures id < w.server.nextId && LeaseOk(w.server.jobs[id]) && TimesOk(w.server.jobs[id], w.clock)
  {
  }

  /** The two sweeps look at the times the run was read for. */
  lemma SweepsSeeTheRun(cfg: Config, start: Time, tr: Trace, id: JobId)
    requires tr != [] && LegalRun(cfg, FreshWorld(start), tr)
    requires id in Run(cfg, FreshWorld(start), Front(tr)).server.jobs
    requires var s := Run(cfg, FreshWorld(start), Front(tr)).server;
             StatusOf(cfg, FreshWorld(start), Front(tr), id) == Some(s.jobs[id].status)
    ensures var j, a := Run(cfg, FreshWorld(start), Front(tr)).server.jobs[id], Last(tr);
            && (ExpiresNow(a.event, a.now, j) <==> Expired(cfg, FreshWorld(start), tr, id))
            && (StaleNow(cfg, a.event, a.now, j) <==> GoneStale(cfg, FreshWorld(start), tr, id))
  {
    hide Step, StatusOf, LastContact, LastRenewal;
    ClocksAgreeOnRuns(cfg, start, Front(tr), id);
  }

  lemma TimedGoesOn(cfg: Config, start: Time, tr: Trace, id: JobId)
    requires tr != [] && LegalRun(cfg, FreshWorld(start), tr)
    requires var s := Run(cfg, FreshWorld(start), Front(tr)).server;
             id in s.jobs && Timed(cfg, FreshWorld(start), Front(tr), id, s.jobs[id])
    requires id in Run(cfg, FreshWorld(start), tr).server.jobs
    ensures Timed(cfg, FreshWorld(start), tr, id, Run(cfg, FreshWorld(start), tr).server.jobs[id])
  {
    hide Step, Inv, Expired, GoneStale;
    var w := FreshWorld(start);
    var before, a := Run(cfg, w, Front(tr)), Last(tr);
    RunKeepsInv(cfg, w, Front(tr));
    GoodRow(before, id);
    SweepsSeeTheRun(cfg, start, tr, id);
    StepTimes(cfg, before.server, a.now, a.event, id);
    StepMarks(cfg, before.server, a.now, a.event, id);
    AnswersTell(cfg, before.server, a.now, a.event, id);
  }

  lemma AssignedGoesOn(cfg: Config, start: Time, tr: Trace, id: JobId)
    requires tr != [] && LegalRun(cfg, FreshWorld(start), tr)
    requires var s := Run(cfg, FreshWorld(start), Front(tr)).server;
             && id in s.jobs && Assigned(cfg, FreshWorld(start), Front(tr), id, s.jobs[id])
             && StatusOf(cfg, FreshWorld(start), Front(tr), id) == Some(s.jobs[id].status)
    requires id in Run(cfg, FreshWorld(start), tr).server.jobs
    ensures Assigned(cfg, FreshWorld(start), tr, id, Run(cfg, FreshWorld(start), tr).server.jobs[id])
  {
    hide Step, Inv, Expired, GoneStale, StatusOf;
    var w := FreshWorld(start);
    var before, a := Run(cfg, w, Front(tr)), Last(tr);
    RunKeepsInv(cfg, w, Front(tr));
    GoodRow(before, id);
    SweepsSeeTheRun(cfg, start, tr, id);
    StepAssigns(cfg, before.server, a.now, a.event, id);
    AnswersTell(cfg, before.server, a.now, a.event, id);
  }

  lemma DescribedGoesOn(cfg: Config, start: Time, tr: Trace, id: JobId)
    requires tr != [] && LegalRun(cfg, FreshWorld(start), tr)
    requires var s := Run(cfg, FreshWorld(start), Front(tr)).server;
             id in s.jobs && Described(cfg, FreshWorld(start), Front(tr), id, s.jobs[id])
    requires id in Run(cfg, FreshWorld(start), tr).server.jobs
    ensures Described(cfg, FreshWorld(start), tr, id, Run(cfg, FreshWorld(start), tr).server.jobs[id])
  {
    hide Step, Inv;
    var w := FreshWorld(start);
    var before, a := Run(cfg, w, Front(tr)), Last(tr);
    RunKeepsInv(cfg, w, Front(tr));
    GoodRow(before, id);
    StepDescribes(cfg, before.server, a.now, a.event, id);
    AnswersTell(cfg, before.server, a.now, a.event, id);
  }

  lemma BirthTells(cfg: Config, start: Time, tr: Trace, id: JobId)
    requires tr != [] && LegalRun(cfg, FreshWorld(start), tr) && Told(cfg, FreshWorld(start), Front(tr), id)
    requires id !in Run(cfg, FreshWorld(start), Front(tr)).server.jobs
    ensures Told(cfg, FreshWorld(start), tr, id)
  {
    hide Step;
    var w := FreshWorld(start);
    var before, a := Run(cfg, w, Front(tr)), Last(tr);
    AbsentIsOnlyBorn(cfg, before.server, a.now, a.event, id);
    NewRowsAreCreated(cfg, before.server, a.now, a.event, id);
    if Born(a.event, LastReply(cfg, w, tr), id) {
      NewbornIsTold(cfg, w, tr, id);
    } else {
      AbsentStaysAbsent(cfg, w, tr, id);
    }
  }

  lemma NewbornIsTold(cfg: Config, w: World, tr: Trace, id: JobId)
    requires tr != [] && Born(Last(tr).event, LastReply(cfg, w, tr), id)
    ensures var j := NewRow(Last(tr).event, Last(tr).now);
            Timed(cfg, w, tr, id, j) && Assigned(cfg, w, tr, id, j) && Described(cfg, w, tr, id, j)
  {
    hide Step;
  }

  /**
   Main result: on every legal run from an empty database, every job's status, start
   and end times, error, holder, sync number, priority, origin and snapshot are what
   the run's events and answers say, with nothing else having touched them.
   */
  lemma {:induction false} RowsAreTheirHistory(cfg: Config, start: Time, tr: Trace, id: JobId)
    requires LegalRun(cfg, FreshWorld(start), tr)
    ensures Told(cfg, FreshWorld(start), tr, id)
    decreases |tr|
  {
    hide Step, Timed, Assigned, Described;
    if tr != [] {
      RowsAreTheirHistory(cfg, start, Front(tr), id);
      if id in Run(cfg, FreshWorld(start), Front(tr)).server.jobs {
        StepTells(cfg, start, tr, id);
      } else {
        BirthTells(cfg, start, tr, id);
      }
    }
  }

  /** In particular a finished job says when it ended, and when its last claim was. */
  lemma FinishedJobsAreDated(cfg: Config, start: Time, tr: Trace, id: JobId)
    requires LegalRun(cfg, FreshWorld(start), tr)
    requires var s := Run(cfg, FreshWorld(start), tr).server; id in s.jobs && s.jobs[id].status !in {Pending, Running}
    ensures var j := Run(cfg, FreshWorld(start), tr).server.jobs[id];
            && j.finishedAt.Some? && j.finishedAt == EndOf(cfg, FreshWorld(start), tr, id)
            && j.startedAt.Some? && j.startedAt == StartOf(cfg, FreshWorld(start), tr, id)
  {
    hide Step;
    RowsAreTheirHistory(cfg, start, tr, id);
    RunKeepsInv(cfg, FreshWorld(start), tr);
  }
}
