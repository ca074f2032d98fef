/** The order in which a runner's sync messages arrive does not matter. */
module SyncOrder {
  import opened Options
  import opened ControlPlane
  import opened JobInvariant

  /** Messages below `first` say "running"; from `first` on they carry the terminal payload. */
  datatype Plan = Plan(first: nat, status: Status, exitCode: Option<int>, message: Option<string>)

  /** What can reach a leased row: a message, or a step of the control plane. */
  datatype Happening =
    | Message(seqNo: nat, now: Time)
    | CancelledAt(now: Time)
    | CheckedAt(now: Time)
    | InterruptedAt(now: Time, reason: string)
    | RenewedAt(runner: string, until: Time)

  function Happen(cfg: Config, plan: Plan, j: Job, h: Happening): Job {
    match h
    case Message(i, now) =>
      var r := if i < plan.first then SyncRow(j, now, i, Some(Running), None, None)
               else SyncRow(j, now, i, Some(plan.status), plan.exitCode, plan.message);
      if r.Applied? then r.row else j
    case CancelledAt(now) => if j.status.Running? then EndRow(j, Cancelled, now, None) else j
    case CheckedAt(now) => StaleRow(j, now, cfg.maxSyncInterval)
    case InterruptedAt(now, reason) => if j.status.Running? then EndRow(j, Failed, now, Some(reason)) else j
    case RenewedAt(runner, until) => RenewRow(j, runner, until)
  }

  function Play(cfg: Config, plan: Plan, j: Job, hs: seq<Happening>): Job {
    if hs == [] then j else Happen(cfg, plan, Play(cfg, plan, j, hs[..|hs| - 1]), hs[|hs| - 1])
  }

  datatype Verdict = Verdict(status: Status, exitCode: Option<int>, message: Option<string>)

  function VerdictOf(j: Job): Verdict {
    Verdict(j.status, j.exitCode, j.message)
  }

  /** Messages 1..n, each once, in order. */
  function InOrder(n: nat, now: Time): seq<Happening> {
    if n == 0 then [] else InOrder(n - 1, now) + [Message(n, now)]
  }

  ghost predicate Delivers(plan: Plan, hs: seq<Happening>) {
    exists i | 0 <= i < |hs| :: hs[i].Message? && hs[i].seqNo >= plan.first
  }

  ghost predicate Claimed(j: Job) {
    j.status.Running? && j.lastSyncSeq == 0 && j.exitCode.None? && j.message.None?
  }

  lemma {:induction false} PlayEndsByDelivery(cfg: Config, plan: Plan, j: Job, hs: seq<Happening>)
    requires Claimed(j) && plan.first >= 1 && Terminal(plan.status)
    ensures var r := Play(cfg, plan, j, hs);
            if Delivers(plan, hs) then
              r.lastSyncSeq >= plan.first && VerdictOf(r) == Verdict(plan.status, plan.exitCode, plan.message)
            else
              r.lastSyncSeq < plan.first && r.exitCode.None? && r.message.None?
  {
    if hs != [] {
      var front, h := hs[..|hs| - 1], hs[|hs| - 1];
      PlayEndsByDelivery(cfg, plan, j, front);
      assert Delivers(plan, hs) <==> Delivers(plan, front) || (h.Message? && h.seqNo >= plan.first);
    }
  }

  /**
   Main result: every delivery order, with duplicates, losses and interleaved
   cancellations, interruptions and sweeps, that delivers at least one terminal
   message ends with the verdict of in-order delivery; and when the terminal
   payload says anything beside its status, no other order does.
   */
  lemma OrderDoesNotMatter(cfg: Config, plan: Plan, j: Job, hs: seq<Happening>, n: nat, now: Time)
    requires Claimed(j) && 1 <= plan.first <= n && Terminal(plan.status)
    ensures var same := VerdictOf(Play(cfg, plan, j, hs)) == VerdictOf(Play(cfg, plan, j, InOrder(n, now)));
            && (Delivers(plan, hs) ==> same)
            && (plan.exitCode.Some? || plan.message.Some? ==> (same <==> Delivers(plan, hs)))
  {
    PlayEndsByDelivery(cfg, plan, j, hs);
    var ordered := InOrder(n, now);
    assert ordered[|ordered| - 1] == Message(n, now);
    PlayEndsByDelivery(cfg, plan, j, InOrder(n, now));
  }

  // ---------------------------------------------------------------- on runs of the control plane

  predicate IsMessage(g: Grant, e: Event) {
    e.Sync? && e.job == g.job && e.token == g.token && e.runner == g.runner
  }

  /** A sync under this lease carries what the plan says for its number. */
  predicate FollowsPlan(plan: Plan, g: Grant, e: Event) {
    e.Sync? && e.token == g.token ==>
      && IsMessage(g, e) && e.seqNo >= 1
      && (if e.seqNo < plan.first then e.status == Some(Running) && e.exitCode.None? && e.message.None?
          else e.status == Some(plan.status) && e.exitCode == plan.exitCode && e.message == plan.message)
  }

  /** What an action of the control plane is to the leased row. */
  function AsHappening(cfg: Config, g: Grant, a: Action): seq<Happening> {
    match a.event
    case Sync(_, _, _, seqNo, _, _, _) => if IsMessage(g, a.event) && seqNo >= 0 then [Message(seqNo, a.now)] else []
    case Cancel(id) => if id == g.job then [CancelledAt(a.now)] else []
    case ReconcileStale => [CheckedAt(a.now)]
    case Interrupt(id, reason) => if id == g.job then [InterruptedAt(a.now, reason)] else []
    case Heartbeat(runner) => [RenewedAt(runner, a.now + cfg.leaseTtl)]
    case _ => []
  }

  function Happenings(cfg: Config, g: Grant, tr: Trace): seq<Happening> {
    if tr == [] then [] else Happenings(cfg, g, Front(tr)) + AsHappening(cfg, g, Last(tr))
  }

  ghost predicate AllFollow(plan: Plan, g: Grant, tr: Trace) {
    forall i | 0 <= i < |tr| :: FollowsPlan(plan, g, tr[i].event)
  }

  function PlayOne(cfg: Config, plan: Plan, j: Job, hs: seq<Happening>): Job {
    if hs == [] then j else Happen(cfg, plan, j, hs[0])
  }

  /** While the lease stands, each step does to the row what its happening says. */
  lemma StepIsHappening(cfg: Config, plan: Plan, g: Grant, w: World, a: Action)
    requires Inv(w) && Legal(w, a) && g.token in w.issued && FollowsPlan(plan, g, a.event)
    requires Holds(Next(cfg, w, a).server, g.job, g.token)
    ensures Holds(w.server, g.job, g.token)
    ensures var j := w.server.jobs[g.job];
            j.runnerId == Some(g.runner) ==>
              && Next(cfg, w, a).server.jobs[g.job] == PlayOne(cfg, plan, j, AsHappening(cfg, g, a))
              && Next(cfg, w, a).server.jobs[g.job].runnerId == Some(g.runner)
  {
    hide Step, Inv;
    var s, e := w.server, a.event;
    if g.job in s.jobs {
      RowsAreGood(w, g.job);
      RowAfterIsExact(cfg, s, a.now, e, g.job);
      TokenKept(cfg, s, a.now, e, g.job, s.jobs[g.job]);
      if s.jobs[g.job].runnerId == Some(g.runner) { RowIsHappening(cfg, plan, g, s, a); }
    } else {
      NewRowsAreCreated(cfg, s, a.now, e, g.job);
    }
  }

  lemma RowsAreGood(w: World, id: JobId)
    requires Inv(w) && id in w.server.jobs
    ensures id < w.server.nextId && LeaseOk(w.server.jobs[id])
  {
  }

  lemma RowIsHappening(cfg: Config, plan: Plan, g: Grant, s: Server, a: Action)
    requires g.job in s.jobs && LeaseOk(s.jobs[g.job]) && s.jobs[g.job].runnerId == Some(g.runner)
    requires s.jobs[g.job].leaseToken == Some(g.token) && FollowsPlan(plan, g, a.event)
    requires a.event.Claim? ==> a.event.token != g.token
    ensures var after := RowAfter(cfg, s, a.now, a.event, g.job, s.jobs[g.job]);
            after.Some? && after.value.leaseToken == Some(g.token) ==>
              && after.value == PlayOne(cfg, plan, s.jobs[g.job], AsHappening(cfg, g, a))
              && after.value.runnerId == Some(g.runner)
  {
  }

  /** On a run during which the lease stands, the row is the play of the happenings. */
  lemma {:induction false} RunIsPlay(cfg: Config, plan: Plan, g: Grant, w: World, tr: Trace)
    requires Inv(w) && LegalRun(cfg, w, tr) && g.token in w.issued && AllFollow(plan, g, tr)
    requires Holds(w.server, g.job, g.token) && w.server.jobs[g.job].runnerId == Some(g.runner)
    requires Holds(Run(cfg, w, tr).server, g.job, g.token)
    ensures var j := Run(cfg, w, tr).server.jobs[g.job];
            && j == Play(cfg, plan, w.server.jobs[g.job], Happenings(cfg, g, tr))
            && j.runnerId == Some(g.runner)
    ensures g.token in Run(cfg, w, tr).issued
    decreases |tr|
  {
    hide Step, Inv, Happen;
    if tr != [] {
      var before, a := Run(cfg, w, Front(tr)), Last(tr);
      RunKeepsInv(cfg, w, Front(tr));
      TokensStayIssued(cfg, w, Front(tr), g.token);
      StepIsHappening(cfg, plan, g, before, a);
      RunIsPlay(cfg, plan, g, w, Front(tr));
      PlayOneMore(cfg, plan, w.server.jobs[g.job], Happenings(cfg, g, Front(tr)), AsHappening(cfg, g, a));
    }
  }

  lemma {:induction false} TokensStayIssued(cfg: Config, w: World, tr: Trace, token: Token)
    requires token in w.issued
    ensures token in Run(cfg, w, tr).issued
    decreases |tr|
  {
    hide Step;
    if tr != [] { TokensStayIssued(cfg, w, Front(tr), token); }
  }

  lemma PlayOneMore(cfg: Config, plan: Plan, j: Job, hs: seq<Happening>, last: seq<Happening>)
    requires |last| <= 1
    ensures Play(cfg, plan, j, hs + last) == PlayOne(cfg, plan, Play(cfg, plan, j, hs), last)
  {
    hide Happen;
    if last == [] {
      assert hs + last == hs;
    } else {
      assert (hs + last)[..|hs + last| - 1] == hs;
    }
  }

  /**
   Main result on runs: from a claim on, any two runs during which the lease
   stands and a terminal message arrives leave the same verdict, that of the
   terminal payload, whatever else each of them contains.
   */
  lemma RunsAgree(cfg: Config, plan: Plan, g: Grant, w: World, a: Trace, b: Trace)
    requires Inv(w) && g.token in w.issued && Holds(w.server, g.job, g.token)
    requires Claimed(w.server.jobs[g.job]) && w.server.jobs[g.job].runnerId == Some(g.runner)
    requires plan.first >= 1 && Terminal(plan.status)
    requires LegalRun(cfg, w, a) && AllFollow(plan, g, a) && Holds(Run(cfg, w, a).server, g.job, g.token)
    requires LegalRun(cfg, w, b) && AllFollow(plan, g, b) && Holds(Run(cfg, w, b).server, g.job, g.token)
    requires Delivers(plan, Happenings(cfg, g, a)) && Delivers(plan, Happenings(cfg, g, b))
    ensures VerdictOf(Run(cfg, w, a).server.jobs[g.job]) == VerdictOf(Run(cfg, w, b).server.jobs[g.job])
         == Verdict(plan.status, plan.exitCode, plan.message)
  {
    hide Run, Inv;
    RunIsPlay(cfg, plan, g, w, a);
    RunIsPlay(cfg, plan, g, w, b);
    PlayEndsByDelivery(cfg, plan, w.server.jobs[g.job], Happenings(cfg, g, a));
    PlayEndsByDelivery(cfg, plan, w.server.jobs[g.job], Happenings(cfg, g, b));
  }
}
