/**
 The two timeouts.  Renewals and contacts are read off the run; the theorems say
 the columns the sweeps look at are exactly those times, so each sweep acts
 exactly on the jobs whose runner has been silent too long.
 */
module Leases {
  import opened Options
  import opened ControlPlane
  import opened JobInvariant
  import opened Fencing

  // ---------------------------------------------------------------- times read off a run

  predicate Renews(s: Server, e: Event, reply: Reply, id: JobId) {
    || (e.Claim? && reply.Claimed? && reply.job == id)
    || (e.Heartbeat? && id in s.jobs && s.jobs[id].status.Running? && s.jobs[id].runnerId == Some(e.runner))
  }

  predicate Contacts(e: Event, reply: Reply, id: JobId) {
    || (e.Claim? && reply.Claimed? && reply.job == id)
    || (e.Sync? && e.job == id && reply.Synced? && reply.applied)
  }

  predicate Requeues(before: Server, after: Server, id: JobId) {
    && id in before.jobs && before.jobs[id].status.Running?
    && id in after.jobs && after.jobs[id].status.Pending?
  }

  /** When job `id` was last claimed, or heartbeat for while running. */
  function LastRenewal(cfg: Config, w: World, tr: Trace, id: JobId): Option<Time> {
    if tr == [] then None
    else
      var before := Run(cfg, w, Front(tr));
      if Renews(before.server, Last(tr).event, ReplyTo(cfg, before, Last(tr)), id) then Some(Last(tr).now)
      else LastRenewal(cfg, w, Front(tr), id)
  }

  /** When job `id` was last claimed, or had a sync accepted. */
  function LastContact(cfg: Config, w: World, tr: Trace, id: JobId): Option<Time> {
    if tr == [] then None
    else
      var before := Run(cfg, w, Front(tr));
      if Contacts(Last(tr).event, ReplyTo(cfg, before, Last(tr)), id) then Some(Last(tr).now)
      else LastContact(cfg, w, Front(tr), id)
  }

  /** How often job `id` went from running back into the queue. */
  function Requeued(cfg: Config, w: World, tr: Trace, id: JobId): nat {
    if tr == [] then 0
    else
      var before := Run(cfg, w, Front(tr));
      Requeued(cfg, w, Front(tr), id) +
      if Requeues(before.server, Next(cfg, before, Last(tr)).server, id) then 1 else 0
  }

  // ---------------------------------------------------------------- one step

  lemma RunningRowClocks(cfg: Config, s: Server, now: Time, e: Event, id: JobId)
    requires id in s.jobs && id < s.nextId
    requires e.Sync? ==> e.status != Some(Pending)
    ensures var r := Step(cfg, s, now, e);
            var j := s.jobs[id];
            id in r.server.jobs ==>
              var j' := r.server.jobs[id];
              && (j'.status.Running? ==>
                    && j'.leaseExpiresAt ==
                       (if Renews(s, e, r.reply, id) then Some(now + cfg.leaseTtl) else j.leaseExpiresAt)
                    && j'.lastStateSyncAt == (if Contacts(e, r.reply, id) then Some(now) else j.lastStateSyncAt))
              && j'.attempt == j.attempt + (if Requeues(s, r.server, id) then 1 else 0)
  {
    hide PushStep, UploadStep;
    RowAfterIsExact(cfg, s, now, e, id);
  }

  // ---------------------------------------------------------------- all runs

  ghost predicate ClocksAgree(cfg: Config, w: World, tr: Trace, id: JobId) {
    var s := Run(cfg, w, tr).server;
    && (id >= s.nextId ==> Requeued(cfg, w, tr, id) == 0)
    && (id in s.jobs ==>
          && s.jobs[id].attempt == Requeued(cfg, w, tr, id)
          && (s.jobs[id].status.Running? ==>
                && LastRenewal(cfg, w, tr, id).Some?
                && s.jobs[id].leaseExpiresAt == Some(LastRenewal(cfg, w, tr, id).value + cfg.leaseTtl)
                && s.jobs[id].lastStateSyncAt == LastContact(cfg, w, tr, id)))
  }

  /** A row that is running now was running before, or has just been claimed. */
  lemma RunningComesFromClaim(cfg: Config, s: Server, now: Time, e: Event, id: JobId)
    requires id in s.jobs && id < s.nextId && LeaseOk(s.jobs[id])
    ensures var r := Step(cfg, s, now, e);
            id in r.server.jobs && r.server.jobs[id].status.Running? ==>
              s.jobs[id].status.Running? || (e.Claim? && r.reply.Claimed? && r.reply.job == id)
  {
    hide PushStep, UploadStep;
    RowAfterIsExact(cfg, s, now, e, id);
  }

  lemma {:induction false} ClocksAgreeOnRuns(cfg: Config, start: Time, tr: Trace, id: JobId)
    requires LegalRun(cfg, FreshWorld(start), tr)
    ensures ClocksAgree(cfg, FreshWorld(start), tr, id)
  {
    hide Step;
    var w := FreshWorld(start);
    if tr != [] {
      ClocksAgreeOnRuns(cfg, start, Front(tr), id);
      RunKeepsInv(cfg, w, Front(tr));
      var before, a := Run(cfg, w, Front(tr)), Last(tr);
      IdsOnlyGrow(cfg, before.server, a.now, a.event);
      if id in before.server.jobs {
        RunningRowClocks(cfg, before.server, a.now, a.event, id);
        RunningComesFromClaim(cfg, before.server, a.now, a.event, id);
      } else {
        NewRowsAreCreated(cfg, before.server, a.now, a.event, id);
      }
    }
  }

  /**
   Main result: an expiry sweep requeues a running job exactly when its last
   renewal is at least the lease time old, clearing the whole lease and adding
   one attempt; any other job it leaves alone.  So a job renewed less than the
   lease time before every sweep is never requeued.
   */
  lemma SweepRequeuesExactly(cfg: Config, start: Time, tr: Trace, a: Action, id: JobId)
    requires LegalRun(cfg, FreshWorld(start), tr) && a.event.ExpireLeases?
    requires var s := Run(cfg, FreshWorld(start), tr).server; id in s.jobs && s.jobs[id].status.Running?
    ensures var w := Run(cfg, FreshWorld(start), tr);
            var j, t := w.server.jobs[id], Next(cfg, w, a).server;
            var renewed := LastRenewal(cfg, FreshWorld(start), tr, id);
            && renewed.Some? && id in t.jobs
            && (if renewed.value + cfg.leaseTtl <= a.now
                then t.jobs[id] == j.(status := Pending, runnerId := None, leaseToken := None,
                                      leaseExpiresAt := None, attempt := j.attempt + 1)
                else t.jobs[id] == j)
  {
    ClocksAgreeOnRuns(cfg, start, tr, id);
  }

  /**
   Main result: a stale sweep fails a running job exactly when its last claim or
   accepted sync is at least the interval old, with the time of the sweep and, if it
   had no error yet, the fixed message; any other running job it leaves alone.
   */
  lemma StaleSweepFailsExactly(cfg: Config, start: Time, tr: Trace, a: Action, id: JobId)
    requires LegalRun(cfg, FreshWorld(start), tr) && a.event.ReconcileStale?
    requires var s := Run(cfg, FreshWorld(start), tr).server; id in s.jobs && s.jobs[id].status.Running?
    ensures var w := Run(cfg, FreshWorld(start), tr);
            var j, t := w.server.jobs[id], Next(cfg, w, a).server;
            var contact := LastContact(cfg, FreshWorld(start), tr, id);
            && contact.Some? && id in t.jobs
            && (if contact.value + cfg.maxSyncInterval <= a.now
                then t.jobs[id] == j.(status := RunnerFailed, finishedAt := Some(a.now), lastStateSyncAt := None,
                                      errorMessage := if j.errorMessage.Some? then j.errorMessage
                                                      else Some("Runner stopped sending state sync updates"))
                else t.jobs[id] == j)
  {
    hide Step, Inv;
    ClocksAgreeOnRuns(cfg, start, tr, id);
    RunKeepsInv(cfg, FreshWorld(start), tr);
    RunningHasContact(Run(cfg, FreshWorld(start), tr), id);
    StaleSweepRow(cfg, Run(cfg, FreshWorld(start), tr).server, a.now, id);
  }

  lemma RunningHasContact(w: World, id: JobId)
    requires Inv(w) && id in w.server.jobs && w.server.jobs[id].status.Running?
    ensures w.server.jobs[id].lastStateSyncAt.Some?
  {
  }

  lemma StaleSweepRow(cfg: Config, s: Server, now: Time, id: JobId)
    requires id in s.jobs
    ensures var j, t := s.jobs[id], Step(cfg, s, now, ReconcileStale).server;
            && id in t.jobs
            && t.jobs[id] ==
               if j.status == Running && j.lastStateSyncAt.Some? &&
                  j.lastStateSyncAt.value + cfg.maxSyncInterval <= now
               then j.(status := RunnerFailed, finishedAt := Some(now), lastStateSyncAt := None,
                       errorMessage := if j.errorMessage.Some? then j.errorMessage
                                       else Some("Runner stopped sending state sync updates"))
               else j
  {
  }

  /** Neither sweep touches a job that is not running, adds one or removes one. */
  lemma SweepsSpareTheRest(cfg: Config, s: Server, now: Time, e: Event)
    requires e.ExpireLeases? || e.ReconcileStale?
    ensures var t := Step(cfg, s, now, e).server;
            && t == s.(jobs := t.jobs) && t.jobs.Keys == s.jobs.Keys
            && (forall id | id in s.jobs && s.jobs[id].status != Running :: t.jobs[id] == s.jobs[id])
  {
  }

  /** A heartbeat moves the expiry of the runner's running jobs and nothing else. */
  lemma HeartbeatRenewsExactly(cfg: Config, s: Server, now: Time, runner: string)
    ensures var t := Step(cfg, s, now, Heartbeat(runner)).server;
            && t == s.(jobs := t.jobs) && t.jobs.Keys == s.jobs.Keys
            && (forall id | id in s.jobs ::
                  t.jobs[id] == if s.jobs[id].status == Running && s.jobs[id].runnerId == Some(runner)
                                then s.jobs[id].(leaseExpiresAt := Some(now + cfg.leaseTtl)) else s.jobs[id])
  {
  }

  /** The attempt column counts the requeues of the job, on every run. */
  lemma AttemptCountsRequeues(cfg: Config, start: Time, tr: Trace, id: JobId)
    requires LegalRun(cfg, FreshWorld(start), tr)
    ensures var s := Run(cfg, FreshWorld(start), tr).server;
            id in s.jobs ==> s.jobs[id].attempt == Requeued(cfg, FreshWorld(start), tr, id)
  {
    ClocksAgreeOnRuns(cfg, start, tr, id);
  }

  /**
   Main result: after a scheduler tick that reads t1 and then t2, every running
   job has a lease beyond t1 and a claim or accepted sync later than
   t2 - maxSyncInterval.
   */
  lemma TickLeavesNoZombie(cfg: Config, start: Time, tr: Trace, t1: Time, t2: Time, id: JobId)
    requires var tick := tr + [Action(t1, ExpireLeases), Action(t2, ReconcileStale)];
             LegalRun(cfg, FreshWorld(start), tick)
    ensures var w := FreshWorld(start);
            var tick := tr + [Action(t1, ExpireLeases), Action(t2, ReconcileStale)];
            var s := Run(cfg, w, tick).server;
            id in s.jobs && s.jobs[id].status.Running? ==>
              && s.jobs[id].leaseExpiresAt.Some? && s.jobs[id].leaseExpiresAt.value > t1
              && LastContact(cfg, w, tr, id).Some?
              && LastContact(cfg, w, tr, id).value > t2 - cfg.maxSyncInterval
  {
    var w := FreshWorld(start);
    var tick1 := tr + [Action(t1, ExpireLeases)];
    var tick := tr + [Action(t1, ExpireLeases), Action(t2, ReconcileStale)];
    assert Front(tick) == tick1 && Front(tick1) == tr;
    ClocksAgreeOnRuns(cfg, start, tick, id);
    RunKeepsInv(cfg, w, tick);
    assert LastContact(cfg, w, tick, id) == LastContact(cfg, w, tick1, id) == LastContact(cfg, w, tr, id);
    TickFilters(cfg, Run(cfg, w, tr).server, t1, t2, id);
    assert Run(cfg, w, tick) == Next(cfg, Next(cfg, Run(cfg, w, tr), Last(tick1)), Last(tick));
  }

  lemma TickFilters(cfg: Config, s: Server, t1: Time, t2: Time, id: JobId)
    ensures var t := Step(cfg, Step(cfg, s, t1, ExpireLeases).server, t2, ReconcileStale).server;
            id in t.jobs && t.jobs[id].status.Running? && t.jobs[id].leaseExpiresAt.Some? &&
            t.jobs[id].lastStateSyncAt.Some? ==>
              t.jobs[id].leaseExpiresAt.value > t1 && t.jobs[id].lastStateSyncAt.value > t2 - cfg.maxSyncInterval
  {
  }

  // ---------------------------------------------------------------- a claim nobody acts on

  ghost predicate SilentSince(s: Server, id: JobId, token: Token, since: Time) {
    Holds(s, id, token) && s.jobs[id].status.Running? ==> s.jobs[id].lastStateSyncAt == Some(since)
  }

  ghost predicate NoSyncBears(tr: Trace, token: Token) {
    forall i | 0 <= i < |tr| :: !(tr[i].event.Sync? && tr[i].event.token == token)
  }

  lemma SilentStep(cfg: Config, w: World, a: Action, id: JobId, token: Token, since: Time)
    requires Inv(w) && Legal(w, a) && token in w.issued && NoSyncBears([a], token)
    requires SilentSince(w.server, id, token, since)
    ensures SilentSince(Next(cfg, w, a).server, id, token, since)
  {
    hide Step;
    var s, e := w.server, a.event;
    assert [a][0] == a;
    if id in s.jobs {
      RowAfterIsExact(cfg, s, a.now, e, id);
      TokenKept(cfg, s, a.now, e, id, s.jobs[id]);
      RunningComesFromClaim(cfg, s, a.now, e, id);
      RunningRowClocks(cfg, s, a.now, e, id);
      if e.Sync? && e.job == id && Holds(s, id, token) { UnheldIsRejected(cfg, s, a.now, e); }
      if e.Claim? && ReplyTo(cfg, w, a).Claimed? { ClaimEffect(cfg, s, a.now, e); }
    } else {
      NewRowsAreCreated(cfg, s, a.now, e, id);
    }
  }

  lemma {:induction false} SilentRun(cfg: Config, w: World, tr: Trace, id: JobId, token: Token, since: Time)
    requires Inv(w) && LegalRun(cfg, w, tr) && token in w.issued && NoSyncBears(tr, token)
    requires SilentSince(w.server, id, token, since)
    ensures SilentSince(Run(cfg, w, tr).server, id, token, since) && token in Run(cfg, w, tr).issued
  {
    hide Step;
    if tr != [] {
      SilentRun(cfg, w, Front(tr), id, token, since);
      RunKeepsInv(cfg, w, Front(tr));
      SilentStep(cfg, Run(cfg, w, Front(tr)), Last(tr), id, token, since);
    }
  }

  /**
   Main result: a claim whose reply was lost, so that its token never syncs,
   does not outlive the first tick at or after claim time + maxSyncInterval,
   whatever heartbeats renew its lease in between.
   */
  lemma LostClaimEnds(cfg: Config, w: World, claim: Action, tr: Trace, t1: Time, t2: Time)
    requires Inv(w) && Legal(w, claim) && claim.event.Claim? && ReplyTo(cfg, w, claim).Claimed?
    requires LegalRun(cfg, Next(cfg, w, claim), tr) && NoSyncBears(tr, claim.event.token)
    requires Run(cfg, Next(cfg, w, claim), tr).clock <= t1 <= t2
    requires claim.now + cfg.maxSyncInterval <= t2
    ensures var before := Run(cfg, Next(cfg, w, claim), tr).server;
            var after := Step(cfg, Step(cfg, before, t1, ExpireLeases).server, t2, ReconcileStale).server;
            !(Holds(after, claim.event.pick, claim.event.token) && after.jobs[claim.event.pick].status.Running?)
  {
    hide Step;
    var id, token := claim.event.pick, claim.event.token;
    var w1 := Next(cfg, w, claim);
    StepKeepsInv(cfg, w, claim);
    ClaimEffect(cfg, w.server, claim.now, claim.event);
    SilentRun(cfg, w1, tr, id, token, claim.now);
    RunKeepsInv(cfg, w1, tr);
    var w2 := Run(cfg, w1, tr);
    var sweep, stale := Action(t1, ExpireLeases), Action(t2, ReconcileStale);
    SilentStep(cfg, w2, sweep, id, token, claim.now);
    StepKeepsInv(cfg, w2, sweep);
    var w3 := Next(cfg, w2, sweep);
    SilentStep(cfg, w3, stale, id, token, claim.now);
    StepKeepsInv(cfg, w3, stale);
    TickFilters(cfg, w2.server, t1, t2, id);
  }
}
