/** What every handler and sweep keeps true of every job row, over all legal runs. */
module JobInvariant {
  import opened Options
  import opened ControlPlane

  /** The lease triple is all there exactly while the job is out of the queue. */
  ghost predicate LeaseOk(j: Job) {
    && (j.leaseToken.Some? <==> !j.status.Pending?)
    && (j.runnerId.Some? <==> !j.status.Pending?)
    && (j.leaseExpiresAt.Some? <==> !j.status.Pending?)
  }

  ghost predicate TimesOk(j: Job, clock: Time) {
    && (j.status.Running? ==> j.startedAt.Some? && j.lastStateSyncAt.Some? && j.finishedAt.None?)
    && (Terminal(j.status) ==>
          j.startedAt.Some? && j.finishedAt.Some? && j.startedAt.value <= j.finishedAt.value)
    && (j.startedAt.Some? ==> j.startedAt.value <= clock)
    && (j.finishedAt.Some? ==> j.finishedAt.value <= clock)
  }

  ghost predicate RowOk(j: Job, clock: Time) {
    LeaseOk(j) && TimesOk(j, clock) && j.lastSyncSeq >= 0
  }

  ghost predicate RowsOk(s: Server, clock: Time) {
    forall id | id in s.jobs :: id < s.nextId && RowOk(s.jobs[id], clock)
  }

  ghost predicate TokensOk(s: Server, issued: set<Token>) {
    && (forall id | id in s.jobs :: s.jobs[id].leaseToken.Some? ==> s.jobs[id].leaseToken.value in issued)
    && (forall a, b | a in s.jobs && b in s.jobs && a != b && s.jobs[a].leaseToken.Some? ::
          s.jobs[a].leaseToken != s.jobs[b].leaseToken)
  }

  /** No chunk row or file exists for an id that has not been handed out yet. */
  ghost predicate NoFutureFiles(s: Server) {
    forall id | s.nextId <= id :: Stored(s, id) == NOTHING_STORED
  }

  ghost predicate Inv(w: World) {
    RowsOk(w.server, w.clock) && TokensOk(w.server, w.issued) && NoFutureFiles(w.server)
  }

  // ---------------------------------------------------------------- one row, one step

  /** What one step makes of an existing row `j`, seen from that row alone. */
  function RowAfter(cfg: Config, s: Server, now: Time, e: Event, id: JobId, j: Job): Option<Job> {
    match e
    case Claim(runner, token, _, _, pick, _) =>
      if id == pick && ClaimStep(cfg, s, now, e).reply.Claimed? then
        Some(ClaimRow(j, Lookup(s.defs, j.taskId), runner, token, now, cfg.leaseTtl))
      else Some(j)
    case Sync(runner, job, token, seqNo, status, exitCode, message) =>
      var r := SyncRow(j, now, seqNo, status, exitCode, message);
      if id == job && j.runnerId == Some(runner) && j.leaseToken == Some(token) && r.Applied?
      then Some(r.row) else Some(j)
    case Heartbeat(runner) => Some(RenewRow(j, runner, now + cfg.leaseTtl))
    case ExpireLeases => Some(ExpireRow(j, now))
    case ReconcileStale => Some(StaleRow(j, now, cfg.maxSyncInterval))
    case Cancel(job) => Some(if id == job && j.status.Running? then EndRow(j, Cancelled, now, None) else j)
    case Interrupt(job, reason) =>
      Some(if id == job && j.status.Running? then EndRow(j, Failed, now, Some(reason)) else j)
    case Retry(job, _) =>
      Some(if id == job && !j.status.Running? && j.taskId in s.defs then RetryRow(j) else j)
    case Delete(job) => if id == job && !j.status.Running? then None else Some(j)
    case SetPriority(job, priority) =>
      Some(if id == job && j.status.Pending? then j.(priority := priority) else j)
    case _ => Some(j)
  }

  lemma RowAfterIsExact(cfg: Config, s: Server, now: Time, e: Event, id: JobId)
    requires id in s.jobs && id < s.nextId
    ensures Row(Step(cfg, s, now, e).server, id) == RowAfter(cfg, s, now, e, id, s.jobs[id])
  {
    hide ClaimStep, SyncStep, PushStep, UploadStep;
    if e.Claim? { ClaimRowIsExact(cfg, s, now, e, id); }
    else if e.Sync? { SyncRowIsExact(cfg, s, now, e, id); }
    else if e.Push? || e.Upload? { FilesLeaveRows(cfg, s, e); }
  }

  lemma ClaimRowIsExact(cfg: Config, s: Server, now: Time, e: Event, id: JobId)
    requires e.Claim? && id in s.jobs
    ensures Row(ClaimStep(cfg, s, now, e).server, id) == RowAfter(cfg, s, now, e, id, s.jobs[id])
  {
    hide ClaimRow, IsNext;
  }

  lemma SyncRowIsExact(cfg: Config, s: Server, now: Time, e: Event, id: JobId)
    requires e.Sync? && id in s.jobs
    ensures Row(SyncStep(s, now, e).server, id) == RowAfter(cfg, s, now, e, id, s.jobs[id])
  {
    hide SyncRow;
  }

  lemma FilesLeaveRows(cfg: Config, s: Server, e: Event)
    ensures e.Push? ==> PushStep(cfg, s, e).server.jobs == s.jobs
    ensures e.Upload? ==> UploadStep(cfg, s, e).server.jobs == s.jobs
  {
  }

  lemma NewRowsAreCreated(cfg: Config, s: Server, now: Time, e: Event, id: JobId)
    requires id !in s.jobs
    ensures Row(Step(cfg, s, now, e).server, id) ==
            if e.Create? && id == s.nextId then Some(NewRow(e, now)) else None
  {
  }

  /** The one job whose chunk rows and files this event can write. */
  predicate WritesTo(e: Event, id: JobId) {
    || (e.Claim? && e.pick == id)
    || ((e.Push? || e.Upload? || e.Retry?) && e.job == id)
  }

  lemma ClaimStoresLocally(cfg: Config, s: Server, now: Time, e: Event, id: JobId)
    requires e.Claim? && (e.pick != id || id !in s.jobs)
    ensures Stored(ClaimStep(cfg, s, now, e).server, id) == Stored(s, id)
  {
  }

  lemma PushStoresLocally(cfg: Config, s: Server, e: Event, id: JobId)
    requires e.Push? && (e.job != id || id !in s.jobs)
    ensures Stored(PushStep(cfg, s, e).server, id) == Stored(s, id)
  {
    hide Parts, SafePath, Tail, Fresher;
  }

  lemma UploadStoresLocally(cfg: Config, s: Server, e: Event, id: JobId)
    requires e.Upload? && (e.job != id || id !in s.jobs)
    ensures Stored(UploadStep(cfg, s, e).server, id) == Stored(s, id)
  {
    hide Parts, SafePath;
  }

  lemma StoredIsLocal(cfg: Config, s: Server, now: Time, e: Event, id: JobId)
    requires !WritesTo(e, id) || id !in s.jobs
    ensures Stored(Step(cfg, s, now, e).server, id) == Stored(s, id)
  {
    hide ClaimStep, PushStep, UploadStep;
    if e.Claim? { ClaimStoresLocally(cfg, s, now, e, id); }
    else if e.Push? { PushStoresLocally(cfg, s, e, id); }
    else if e.Upload? { UploadStoresLocally(cfg, s, e, id); }
  }

  /** An answered claim took its pick under its own token, now; any other claim changed nothing. */
  lemma ClaimEffect(cfg: Config, s: Server, now: Time, e: Event)
    requires e.Claim?
    ensures var r := Step(cfg, s, now, e);
            if r.reply.Claimed? then
              && r.reply.job == e.pick && r.reply.token == e.token
              && IsNext(s.jobs, e.pick) && e.pick in r.server.jobs
              && r.server.jobs[e.pick].leaseToken == Some(e.token)
              && r.server.jobs[e.pick].lastStateSyncAt == Some(now)
            else r.server == s
  {
  }

  lemma OnlyClaimsAnswerClaimed(cfg: Config, s: Server, now: Time, e: Event)
    requires Step(cfg, s, now, e).reply.Claimed?
    ensures e.Claim?
  {
  }

  lemma RowKept(cfg: Config, s: Server, now: Time, e: Event, id: JobId, j: Job)
    requires RowOk(j, now)
    requires e.Sync? ==> e.status != Some(Pending)
    ensures var r := RowAfter(cfg, s, now, e, id, j); r.Some? ==> RowOk(r.value, now)
  {
  }

  /** A row's token survives the step, is cleared, or is the one this claim brought. */
  lemma TokenKept(cfg: Config, s: Server, now: Time, e: Event, id: JobId, j: Job)
    ensures var r := RowAfter(cfg, s, now, e, id, j);
            r.Some? ==>
              || r.value.leaseToken == j.leaseToken
              || r.value.leaseToken.None?
              || (e.Claim? && id == e.pick && r.value.leaseToken == Some(e.token))
  {
  }

  lemma IdsOnlyGrow(cfg: Config, s: Server, now: Time, e: Event)
    ensures s.nextId <= Step(cfg, s, now, e).server.nextId
    ensures e.Create? ==> Step(cfg, s, now, e).server.nextId == s.nextId + 1
  {
  }

  lemma RowsKept(cfg: Config, w: World, a: Action)
    requires Inv(w) && Legal(w, a)
    ensures RowsOk(Next(cfg, w, a).server, a.now)
  {
    hide Step;
    var s := w.server;
    var t := Step(cfg, s, a.now, a.event).server;
    IdsOnlyGrow(cfg, s, a.now, a.event);
    forall id | id in t.jobs
      ensures id < t.nextId && RowOk(t.jobs[id], a.now)
    {
      if id in s.jobs {
        RowAfterIsExact(cfg, s, a.now, a.event, id);
        RowKept(cfg, s, a.now, a.event, id, s.jobs[id]);
      } else {
        NewRowsAreCreated(cfg, s, a.now, a.event, id);
      }
    }
  }

  lemma TokensKept(cfg: Config, w: World, a: Action)
    requires Inv(w) && Legal(w, a)
    ensures TokensOk(Next(cfg, w, a).server, Next(cfg, w, a).issued)
  {
    hide Step;
    var s := w.server;
    var t := Step(cfg, s, a.now, a.event).server;
    forall id | id in t.jobs
      ensures t.jobs[id].leaseToken.Some? ==>
                || (id in s.jobs && s.jobs[id].leaseToken == t.jobs[id].leaseToken)
                || (a.event.Claim? && id == a.event.pick && t.jobs[id].leaseToken == Some(a.event.token))
    {
      if id in s.jobs {
        RowAfterIsExact(cfg, s, a.now, a.event, id);
        TokenKept(cfg, s, a.now, a.event, id, s.jobs[id]);
      } else {
        NewRowsAreCreated(cfg, s, a.now, a.event, id);
      }
    }
  }

  lemma FilesKept(cfg: Config, w: World, a: Action)
    requires Inv(w)
    ensures NoFutureFiles(Next(cfg, w, a).server)
  {
    hide Step;
    var t := Step(cfg, w.server, a.now, a.event).server;
    IdsOnlyGrow(cfg, w.server, a.now, a.event);
    forall id | t.nextId <= id
      ensures Stored(t, id) == NOTHING_STORED
    {
      StoredIsLocal(cfg, w.server, a.now, a.event, id);
    }
  }

  lemma StepKeepsInv(cfg: Config, w: World, a: Action)
    requires Inv(w) && Legal(w, a)
    ensures Inv(Next(cfg, w, a))
  {
    RowsKept(cfg, w, a);
    TokensKept(cfg, w, a);
    FilesKept(cfg, w, a);
  }

  /** Main result: from an empty database, every legal run keeps the invariant. */
  lemma {:induction false} RunKeepsInv(cfg: Config, w: World, tr: Trace)
    requires Inv(w) && LegalRun(cfg, w, tr)
    ensures Inv(Run(cfg, w, tr))
  {
    if tr != [] {
      RunKeepsInv(cfg, w, Front(tr));
      StepKeepsInv(cfg, Run(cfg, w, Front(tr)), Last(tr));
    }
  }

  /** Only a retry or a delete of that very job takes it out of the terminal set. */
  lemma TerminalIsLeftOnlyByRetryOrDelete(cfg: Config, w: World, a: Action, id: JobId)
    requires Inv(w) && Legal(w, a)
    requires id in w.server.jobs && Terminal(w.server.jobs[id].status)
    ensures var t := Next(cfg, w, a).server;
            (id in t.jobs && Terminal(t.jobs[id].status)) <==>
            !((a.event.Retry? || a.event.Delete?) && a.event.job == id && ReplyTo(cfg, w, a).Done?)
  {
    RowAfterIsExact(cfg, w.server, a.now, a.event, id);
  }

  /** The branch nobody guards: the lease holder's next sync says "pending". */
  predicate SaysPending(s: Server, e: Event) {
    && e.Sync? && e.status == Some(Pending)
    && Lease(s, e.runner, e.job, e.token) == Done
    && s.jobs[e.job].lastSyncSeq < e.seqNo
  }

  /**
   Without the restriction to the protocol's statuses the invariant breaks on
   exactly one kind of request: the lease holder's next sync, saying "pending".
   */
  lemma PendingSyncIsTheOnlyBreak(cfg: Config, w: World, a: Action)
    requires Inv(w) && w.clock <= a.now && a.event.Sync?
    ensures Inv(Next(cfg, w, a)) <==> !SaysPending(w.server, a.event)
  {
    var e := a.event;
    if e.status != Some(Pending) {
      StepKeepsInv(cfg, w, a);
    } else if SaysPending(w.server, e) {
      RowAfterIsExact(cfg, w.server, a.now, e, e.job);
      assert !LeaseOk(Next(cfg, w, a).server.jobs[e.job]);
    } else {
      assert Next(cfg, w, a) == w.(clock := a.now);
    }
  }

  /** The failing input: a job is created, claimed by "r" and then synced to "pending". */
  lemma PendingSyncBreaks(cfg: Config, def: TaskDef)
    requires cfg.claimLimit >= 1
    ensures var created := Next(cfg, FreshWorld(0), Action(1, Create("serde", "1.0.0", 1, def)));
            var claim := Action(2, Claim("r", 7, 0, 1, 1, Whole));
            var claimed := Next(cfg, created, claim);
            var sync := Action(3, Sync("r", 1, 7, 1, Some(Pending), None, None));
            && Legal(created, claim) && ReplyTo(cfg, created, claim).Claimed? && Inv(claimed)
            && ReplyTo(cfg, claimed, sync) == Synced(true, 1)
            && !Inv(Next(cfg, claimed, sync))
  {
    hide Inv;
    var create := Action(1, Create("serde", "1.0.0", 1, def));
    FreshIsGood(0);
    StepKeepsInv(cfg, FreshWorld(0), create);
    var created := Next(cfg, FreshWorld(0), create);
    var claim := Action(2, Claim("r", 7, 0, 1, 1, Whole));
    assert created.server.jobs == map[1 := NewRow(create.event, 1)];
    assert IsNext(created.server.jobs, 1);
    StepKeepsInv(cfg, created, claim);
    var claimed := Next(cfg, created, claim);
    PendingSyncIsTheOnlyBreak(cfg, claimed, Action(3, Sync("r", 1, 7, 1, Some(Pending), None, None)));
  }

  lemma FreshIsGood(start: Time)
    ensures Inv(FreshWorld(start))
  {
  }
}
