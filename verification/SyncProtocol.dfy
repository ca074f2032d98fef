/**
 The runner's sync loop, an unreliable network and the control plane, together.
 The network may deliver any payload ever sent any number of times, in any
 order, at any time, and may lose any answer.  Meanwhile the control plane takes
 any other legal step.
 */
module SyncProtocol {
  import opened Options
  import opened ControlPlane
  import opened JobInvariant
  import opened SyncLoop
  import F = Fencing
  import L = SyncLoop

  /**
   `sent` and `answers` are the network's memory.  `acked` says the loop itself
   saw an acknowledgement; `applied` that the server accepted a terminal payload;
   `retired` that the job was since retried or deleted.
   */
  datatype System = System(
    world: World,
    loop: Loop,
    sent: set<Payload>,
    answers: set<(Payload, int)>,
    acked: bool,
    applied: bool,
    retired: bool)

  datatype Move =
    | Local(act: Act)
    | Deliver(payload: Payload, now: Time)
    | Other(action: Action)

  function Request(g: Grant, p: Payload, now: Time): Action {
    Action(now, Sync(g.runner, g.job, g.token, p.seqNo, Some(p.status), p.exitCode, p.message))
  }

  ghost predicate Possible(g: Grant, x: System, m: Move) {
    match m
    case Local(a) =>
      && Enabled(x.loop, a)
      && (a.Answered? ==> x.loop.phase.Sending? && (x.loop.phase.payload, a.lastSyncSeq) in x.answers)
    case Deliver(p, now) => p in x.sent && Legal(x.world, Request(g, p, now))
    case Other(a) => Legal(x.world, a) && !(a.event.Sync? && a.event.token == g.token)
  }

  function Make(cfg: Config, g: Grant, x: System, m: Move): System
    requires m.Local? ==> Enabled(x.loop, m.act)
  {
    match m
    case Local(a) =>
      x.(loop := Perform(x.loop, a),
         sent := if a.Snapshot? && !x.loop.acked then x.sent + {Current(x.loop)} else x.sent,
         acked := x.acked ||
                  (a.Answered? && x.loop.phase.Sending? && Acknowledges(x.loop.phase.payload, a.lastSyncSeq)))
    case Deliver(p, now) =>
      var reply := ReplyTo(cfg, x.world, Request(g, p, now));
      x.(world := Next(cfg, x.world, Request(g, p, now)),
         answers := if reply.Synced? then x.answers + {(p, reply.lastSyncSeq)} else x.answers,
         applied := x.applied || (reply.Synced? && reply.applied && Terminal(p.status)))
    case Other(a) =>
      var reply := ReplyTo(cfg, x.world, a);
      x.(world := Next(cfg, x.world, a),
         retired := x.retired || ((a.event.Retry? || a.event.Delete?) && a.event.job == g.job && reply.Done?))
  }

  // ---------------------------------------------------------------- the invariant

  ghost predicate LoopOk(x: System) {
    var l := x.loop;
    && (l.status.Running? || Terminal(l.status))
    && (l.status.Running? ==> l.exitCode.None? && l.message.None?)
    && (l.phase.Sending? ==> l.phase.payload in x.sent)
    && 1 <= l.nextSeq
  }

  ghost predicate SentOk(x: System) {
    && (forall p | p in x.sent ::
          && 1 <= p.seqNo < x.loop.nextSeq
          && (if p.status.Running? then p.exitCode.None? && p.message.None?
              else Terminal(p.status) && p.status == x.loop.status && p.exitCode == x.loop.exitCode &&
                   p.message == x.loop.message))
    && (forall p, q | p in x.sent && q in x.sent :: p.status.Running? && !q.status.Running? ==> p.seqNo < q.seqNo)
  }

  /** The row under the lease: nothing terminal applied yet, or the terminal payload standing. */
  ghost predicate RowMirrors(x: System, j: Job) {
    if x.applied then
      && !x.loop.status.Running?
      && j.status == x.loop.status && j.exitCode == x.loop.exitCode && j.message == x.loop.message
    else
      && j.exitCode.None? && j.message.None?
      && (forall p | p in x.sent :: !p.status.Running? ==> j.lastSyncSeq < p.seqNo)
  }

  ghost predicate ServerOk(g: Grant, x: System) {
    var s := x.world.server;
    && Inv(x.world) && g.token in x.world.issued
    && (Holds(s, g.job, g.token) ==>
          && s.jobs[g.job].runnerId == Some(g.runner)
          && s.jobs[g.job].lastSyncSeq < x.loop.nextSeq
          && RowMirrors(x, s.jobs[g.job]))
    && (x.applied && !x.retired ==> Holds(s, g.job, g.token))
  }

  ghost predicate AnswersOk(x: System) {
    && (forall a | a in x.answers :: Acknowledges(a.0, a.1) ==> x.applied)
    && (forall a | a in x.answers :: !a.0.status.Running? ==> a.0.seqNo <= a.1)
    && (x.acked ==> x.applied)
    && (x.applied ==> !x.loop.status.Running?)
  }

  ghost predicate Good(g: Grant, x: System) {
    LoopOk(x) && SentOk(x) && ServerOk(g, x) && AnswersOk(x)
  }

  // ---------------------------------------------------------------- one move

  /** Any step but a sync under this lease leaves the synced columns of the row alone. */
  lemma OtherStepsSpareTheRow(cfg: Config, w: World, a: Action, g: Grant)
    requires Inv(w) && Legal(w, a) && g.token in w.issued
    requires !(a.event.Sync? && a.event.token == g.token)
    ensures var s, t := w.server, Next(cfg, w, a).server;
            && (Holds(t, g.job, g.token) ==>
                  && Holds(s, g.job, g.token)
                  && t.jobs[g.job].runnerId == s.jobs[g.job].runnerId
                  && t.jobs[g.job].lastSyncSeq == s.jobs[g.job].lastSyncSeq
                  && t.jobs[g.job].exitCode == s.jobs[g.job].exitCode
                  && t.jobs[g.job].message == s.jobs[g.job].message
                  && (Terminal(s.jobs[g.job].status) ==> t.jobs[g.job].status == s.jobs[g.job].status))
            && (Holds(s, g.job, g.token) && Terminal(s.jobs[g.job].status) ==>
                  || Holds(t, g.job, g.token)
                  || ((a.event.Retry? || a.event.Delete?) && a.event.job == g.job && ReplyTo(cfg, w, a).Done?))
  {
    hide ClaimStep, PushStep, UploadStep, SyncStep;
    var s, e := w.server, a.event;
    if g.job in s.jobs {
      RowAfterIsExact(cfg, s, a.now, e, g.job);
      TokenKept(cfg, s, a.now, e, g.job, s.jobs[g.job]);
      if Holds(s, g.job, g.token) && Terminal(s.jobs[g.job].status) {
        TerminalIsLeftOnlyByRetryOrDelete(cfg, w, a, g.job);
        RowKept(cfg, s, a.now, e, g.job, s.jobs[g.job]);
      }
      if e.Sync? && e.job == g.job && Holds(s, g.job, g.token) { F.UnheldIsRejected(cfg, s, a.now, e); }
    } else {
      NewRowsAreCreated(cfg, s, a.now, e, g.job);
    }
  }

  lemma OtherKeepsGood(cfg: Config, g: Grant, x: System, a: Action)
    requires Good(g, x) && Possible(g, x, Other(a))
    ensures Good(g, Make(cfg, g, x, Other(a)))
  {
    hide Step;
    StepKeepsInv(cfg, x.world, a);
    OtherStepsSpareTheRow(cfg, x.world, a, g);
  }

  lemma LocalKeepsGood(cfg: Config, g: Grant, x: System, a: Act)
    requires Good(g, x) && Possible(g, x, Local(a))
    ensures Good(g, Make(cfg, g, x, Local(a)))
  {
    var y := Make(cfg, g, x, Local(a));
    assert forall p | p in y.sent :: p in x.sent || p == Current(x.loop);
  }

  lemma DeliverKeepsGood(cfg: Config, g: Grant, x: System, p: Payload, now: Time)
    requires Good(g, x) && Possible(g, x, Deliver(p, now))
    ensures Good(g, Make(cfg, g, x, Deliver(p, now)))
  {
    hide Step, Inv;
    var a := Request(g, p, now);
    StepKeepsInv(cfg, x.world, a);
    if Holds(x.world.server, g.job, g.token) {
      HeldSyncEffect(cfg, x.world.server, now, a.event);
    } else {
      F.UnheldIsRejected(cfg, x.world.server, now, a.event);
    }
  }

  /** What the server does with a sync under the lease the job holds. */
  lemma HeldSyncEffect(cfg: Config, s: Server, now: Time, e: Event)
    requires e.Sync? && Holds(s, e.job, e.token) && s.jobs[e.job].runnerId == Some(e.runner) && e.status.Some?
    ensures var r := Step(cfg, s, now, e);
            var row := SyncRow(s.jobs[e.job], now, e.seqNo, e.status, e.exitCode, e.message);
            && (row.Skipped? ==> r.server == s && r.reply == Synced(false, s.jobs[e.job].lastSyncSeq))
            && (!row.Skipped? ==> row.Applied? && r.server == s.(jobs := s.jobs[e.job := row.row]) &&
                                  r.reply == Synced(true, row.row.lastSyncSeq))
  {
    hide PushStep, UploadStep, ClaimStep;
  }

  // ---------------------------------------------------------------- all runs

  /** The moment the claim was answered: a fresh row, a loop about to start. */
  ghost predicate JustClaimed(g: Grant, x: System) {
    && Inv(x.world) && g.token in x.world.issued && Holds(x.world.server, g.job, g.token)
    && (var j := x.world.server.jobs[g.job];
        j.runnerId == Some(g.runner) && j.lastSyncSeq == 0 && j.exitCode.None? && j.message.None?)
    && x.loop == INITIAL && x.sent == {} && x.answers == {} && !x.acked && !x.applied && !x.retired
  }

  ghost function After(cfg: Config, g: Grant, x: System, ms: seq<Move>): System {
    if ms == [] then x
    else
      var before, m := After(cfg, g, x, ms[..|ms| - 1]), ms[|ms| - 1];
      if Possible(g, before, m) then Make(cfg, g, before, m) else before
  }

  ghost predicate Runs(cfg: Config, g: Grant, x: System, ms: seq<Move>) {
    ms != [] ==>
      && Runs(cfg, g, x, ms[..|ms| - 1])
      && Possible(g, After(cfg, g, x, ms[..|ms| - 1]), ms[|ms| - 1])
  }

  lemma MoveKeepsGood(cfg: Config, g: Grant, x: System, m: Move)
    requires Good(g, x) && Possible(g, x, m)
    ensures Good(g, Make(cfg, g, x, m))
  {
    match m
    case Local(a) => LocalKeepsGood(cfg, g, x, a);
    case Deliver(p, now) => DeliverKeepsGood(cfg, g, x, p, now);
    case Other(a) => OtherKeepsGood(cfg, g, x, a);
  }

  lemma {:induction false} EveryRunIsGood(cfg: Config, g: Grant, x: System, ms: seq<Move>)
    requires JustClaimed(g, x) && Runs(cfg, g, x, ms)
    ensures Good(g, After(cfg, g, x, ms))
  {
    hide Make, Possible, ServerOk, SentOk, AnswersOk, LoopOk;
    if ms == [] {
      JustClaimedIsGood(g, x);
    } else {
      EveryRunIsGood(cfg, g, x, ms[..|ms| - 1]);
      MoveKeepsGood(cfg, g, After(cfg, g, x, ms[..|ms| - 1]), ms[|ms| - 1]);
    }
  }

  lemma JustClaimedIsGood(g: Grant, x: System)
    requires JustClaimed(g, x)
    ensures Good(g, x)
  {
  }

  /**
   Main result: whatever the network and the rest of the system do, if the loop
   itself saw its acknowledgement then the job still is under this lease with
   exactly the loop's terminal status, exit code and message, until it is
   retried or deleted.
   */
  lemma TerminalAckIsSound(cfg: Config, g: Grant, x: System, ms: seq<Move>)
    requires JustClaimed(g, x) && Runs(cfg, g, x, ms)
    requires var y := After(cfg, g, x, ms); y.acked && !y.retired
    ensures var y := After(cfg, g, x, ms);
            && Holds(y.world.server, g.job, g.token)
            && Terminal(y.loop.status)
            && var j := y.world.server.jobs[g.job];
               j.status == y.loop.status && j.exitCode == y.loop.exitCode && j.message == y.loop.message
  {
    EveryRunIsGood(cfg, g, x, ms);
  }

  /**
   One delivery of any terminal payload while the lease is live settles the row:
   a refusal as duplicate or stale only happens when the terminal payload is
   already in force.
   */
  lemma TerminalDeliverySettles(cfg: Config, g: Grant, x: System, ms: seq<Move>, p: Payload, now: Time)
    requires JustClaimed(g, x) && Runs(cfg, g, x, ms)
    requires Possible(g, After(cfg, g, x, ms), Deliver(p, now)) && Terminal(p.status)
    requires Holds(After(cfg, g, x, ms).world.server, g.job, g.token)
    ensures var y := Make(cfg, g, After(cfg, g, x, ms), Deliver(p, now));
            && Holds(y.world.server, g.job, g.token)
            && var j := y.world.server.jobs[g.job];
               j.status == p.status && j.exitCode == p.exitCode && j.message == p.message
  {
    hide Step, Inv;
    EveryRunIsGood(cfg, g, x, ms);
    var y := After(cfg, g, x, ms);
    HeldSyncEffect(cfg, y.world.server, now, Request(g, p, now).event);
    DeliverKeepsGood(cfg, g, y, p, now);
  }

  // ---------------------------------------------------------------- what a finished loop guarantees

  /** The shutdown path set the flag itself at some point, needed or not. */
  ghost predicate GaveUp(ms: seq<Move>) {
    exists i | 0 <= i < |ms| :: ms[i] == Local(ForceAck)
  }

  /** It found the flag clear when it did: nothing was acknowledged in time. */
  ghost predicate GaveUpEarly(cfg: Config, g: Grant, x: System, ms: seq<Move>) {
    ms != [] &&
    var front := ms[..|ms| - 1];
    GaveUpEarly(cfg, g, x, front) || (ms[|ms| - 1] == Local(ForceAck) && !After(cfg, g, x, front).loop.acked)
  }

  /** The loop reads an answer that acknowledges its terminal payload. */
  predicate Sees(x: System, m: Move) {
    m.Local? && m.act.Answered? && x.loop.phase.Sending? && Acknowledges(x.loop.phase.payload, m.act.lastSyncSeq)
  }

  lemma FlagOfMove(cfg: Config, g: Grant, x: System, m: Move)
    requires Possible(g, x, m)
    ensures var y := Make(cfg, g, x, m);
            && (y.acked <==> x.acked || Sees(x, m))
            && (y.loop.acked <==> x.loop.acked || Sees(x, m) || m == Local(ForceAck))
            && (y.loop.phase.Exited? ==> y.loop.acked || x.loop.phase.Exited?)
  {
    hide Step;
  }

  /**
   Who set the flag: the loop on an acknowledgement it saw, or the shutdown path;
   and the loop is out only with the flag set.
   */
  lemma {:induction false} FlagIsAckedOrGivenUp(cfg: Config, g: Grant, x: System, ms: seq<Move>)
    requires JustClaimed(g, x) && Runs(cfg, g, x, ms)
    ensures var y := After(cfg, g, x, ms);
            && (y.loop.acked <==> y.acked || GaveUp(ms))
            && (y.loop.phase.Exited? ==> y.loop.acked)
            && (y.loop.acked && !GaveUpEarly(cfg, g, x, ms) ==> y.acked)
            && (GaveUpEarly(cfg, g, x, ms) ==> GaveUp(ms))
    decreases |ms|
  {
    hide Make, Possible;
    if ms != [] {
      var front, m := ms[..|ms| - 1], ms[|ms| - 1];
      FlagIsAckedOrGivenUp(cfg, g, x, front);
      FlagOfMove(cfg, g, After(cfg, g, x, front), m);
      GaveUpOneMore(ms);
    }
  }

  lemma GaveUpOneMore(ms: seq<Move>)
    requires ms != []
    ensures GaveUp(ms) <==> GaveUp(ms[..|ms| - 1]) || ms[|ms| - 1] == Local(ForceAck)
  {
    var front := ms[..|ms| - 1];
    assert forall i | 0 <= i < |front| :: front[i] == ms[i];
    if GaveUp(ms) {
      var i :| 0 <= i < |ms| && ms[i] == Local(ForceAck);
      assert i < |front| ==> front[i] == Local(ForceAck);
    }
    if ms[|ms| - 1] == Local(ForceAck) { assert ms[|ms| - 1] == Local(ForceAck); }
  }

  /**
   Main result: a loop that is out, with the shutdown path not having given up
   while nothing was acknowledged, has put its terminal status, exit code and
   message in force under its lease, until a retry or delete.
   */
  lemma FinishedLoopIsSound(cfg: Config, g: Grant, x: System, ms: seq<Move>)
    requires JustClaimed(g, x) && Runs(cfg, g, x, ms)
    requires var y := After(cfg, g, x, ms); y.loop.phase.Exited? && !y.retired
    requires !GaveUpEarly(cfg, g, x, ms)
    ensures var y := After(cfg, g, x, ms);
            && Holds(y.world.server, g.job, g.token)
            && Terminal(y.loop.status)
            && var j := y.world.server.jobs[g.job];
               j.status == y.loop.status && j.exitCode == y.loop.exitCode && j.message == y.loop.message
  {
    FlagIsAckedOrGivenUp(cfg, g, x, ms);
    TerminalAckIsSound(cfg, g, x, ms);
  }

  /**
   Giving up early is not harmless: the loop can be out without one answer and
   without ever having sent its terminal payload, and the row still says running.
   */
  lemma GivingUpLosesTheOutcome(cfg: Config, g: Grant, x: System, exitCode: Option<int>)
    requires JustClaimed(g, x) && x.world.server.jobs[g.job].status.Running?
    ensures var ms := [Local(Snapshot), Local(SetTerminal(Completed, exitCode, None)),
                       Local(ForceAck), Local(SyncFailed)];
            var y := After(cfg, g, x, ms);
            && Runs(cfg, g, x, ms) && GaveUpEarly(cfg, g, x, ms)
            && y.loop.phase.Exited? && y.loop.status == Completed
            && y.answers == {} && !y.acked && (forall p | p in y.sent :: p.status.Running?)
            && y.world == x.world
  {
    hide Step, Inv;
    var m1 := [Local(Snapshot)];
    var m2 := m1 + [Local(SetTerminal(Completed, exitCode, None))];
    var m3 := m2 + [Local(ForceAck)];
    OneMoreMove(cfg, g, x, [], Local(Snapshot));
    assert [] + m1 == m1;
    OneMoreMove(cfg, g, x, m1, Local(SetTerminal(Completed, exitCode, None)));
    OneMoreMove(cfg, g, x, m2, Local(ForceAck));
    assert m3[..|m3| - 1] == m2;
    OneMoreMove(cfg, g, x, m3, Local(SyncFailed));
    var m4 := m3 + [Local(SyncFailed)];
    assert m4[..|m4| - 1] == m3;
    assert m4 == [Local(Snapshot), Local(SetTerminal(Completed, exitCode, None)), Local(ForceAck), Local(SyncFailed)];
  }

  lemma OneMoreMove(cfg: Config, g: Grant, x: System, ms: seq<Move>, m: Move)
    requires Runs(cfg, g, x, ms) && Possible(g, After(cfg, g, x, ms), m)
    ensures Runs(cfg, g, x, ms + [m]) && After(cfg, g, x, ms + [m]) == Make(cfg, g, After(cfg, g, x, ms), m)
  {
    assert (ms + [m])[..|ms + [m]| - 1] == ms;
  }

  /** Under the live lease every terminal payload is answered, and the answer acknowledges it. */
  lemma TerminalAnswerCovers(cfg: Config, g: Grant, x: System, p: Payload, now: Time)
    requires Good(g, x) && Possible(g, x, Deliver(p, now)) && Terminal(p.status)
    requires Holds(x.world.server, g.job, g.token)
    ensures var reply := ReplyTo(cfg, x.world, Request(g, p, now));
            reply.Synced? && Acknowledges(p, reply.lastSyncSeq)
  {
    HeldSyncEffect(cfg, x.world.server, now, Request(g, p, now).event);
  }

  // ---------------------------------------------------------------- the loop's exit, with this server

  /** The loop's own part of a run of the system. */
  function Locals(ms: seq<Move>): seq<Act> {
    if ms == [] then []
    else if ms[|ms| - 1].Local? then Locals(ms[..|ms| - 1]) + [ms[|ms| - 1].act]
    else Locals(ms[..|ms| - 1])
  }

  /** Every request of these moves is answered, and the shutdown path stays out. */
  ghost predicate ServerAnswers(ms: seq<Move>) {
    forall i | 0 <= i < |ms| && ms[i].Local? :: Own(ms[i].act) && !ms[i].act.SyncFailed?
  }

  /** Only its own part moves the loop, and answers it takes were given by the server. */
  lemma LoopOfMove(cfg: Config, g: Grant, x: System, m: Move)
    requires Possible(g, x, m)
    ensures m.Local? ==> Enabled(x.loop, m.act)
    ensures Make(cfg, g, x, m).loop == if m.Local? then Perform(x.loop, m.act) else x.loop
    ensures Good(g, x) && m.Local? && m.act.Answered? && !x.loop.phase.payload.status.Running? ==>
              x.loop.phase.payload.seqNo <= m.act.lastSyncSeq
  {
    hide Step, Inv, ServerOk, SentOk, Perform;
  }

  lemma {:induction false} LoopRunsAlone(cfg: Config, g: Grant, x: System, ms: seq<Move>)
    requires x.loop == INITIAL && Runs(cfg, g, x, ms)
    ensures EnabledAll(INITIAL, Locals(ms)) && After(cfg, g, x, ms).loop == L.After(INITIAL, Locals(ms))
    decreases |ms|
  {
    hide Make, Possible, EnabledAll, L.After, Perform, Good;
    NoActs(INITIAL);
    if ms != [] {
      var front, m := ms[..|ms| - 1], ms[|ms| - 1];
      LoopRunsAlone(cfg, g, x, front);
      LoopOfMove(cfg, g, After(cfg, g, x, front), m);
      if m.Local? { OneMoreAct(INITIAL, Locals(front), m.act); }
    }
  }

  lemma {:induction false} RunSplits(cfg: Config, g: Grant, x: System, a: seq<Move>, b: seq<Move>)
    requires Runs(cfg, g, x, a + b)
    ensures Runs(cfg, g, x, a)
    ensures Runs(cfg, g, After(cfg, g, x, a), b)
    ensures After(cfg, g, x, a + b) == After(cfg, g, After(cfg, g, x, a), b)
    decreases |b|
  {
    hide Make, Possible;
    if b == [] {
      assert a + b == a;
    } else {
      assert (a + b)[..|a + b| - 1] == a + b[..|b| - 1];
      RunSplits(cfg, g, x, a, b[..|b| - 1]);
    }
  }

  /** From a good state on, the server's answers are of the kind the loop's exit needs. */
  lemma {:induction false} AnswersLetTheLoopExit(cfg: Config, g: Grant, x: System, ms: seq<Move>)
    requires Good(g, x) && Runs(cfg, g, x, ms) && ServerAnswers(ms)
    ensures var acts := Locals(ms);
            && Good(g, After(cfg, g, x, ms))
            && EnabledAll(x.loop, acts) && After(cfg, g, x, ms).loop == L.After(x.loop, acts)
            && AllAnswered(x.loop, acts)
            && (forall i | 0 <= i < |acts| :: Own(acts[i]))
    decreases |ms|
  {
    hide Make, Possible, Good, EnabledAll, L.After, AllAnswered, Perform;
    NoActs(x.loop);
    if ms != [] {
      var front, m := ms[..|ms| - 1], ms[|ms| - 1];
      assert forall i | 0 <= i < |front| :: front[i] == ms[i];
      AnswersLetTheLoopExit(cfg, g, x, front);
      var y := After(cfg, g, x, front);
      MoveKeepsGood(cfg, g, y, m);
      LoopOfMove(cfg, g, y, m);
      if m.Local? {
        OneMoreAct(x.loop, Locals(front), m.act);
        OneMoreAnswer(x.loop, Locals(front), m.act);
      }
    }
  }

  lemma NoActs(l: Loop)
    ensures EnabledAll(l, []) && L.After(l, []) == l && AllAnswered(l, [])
  {
  }

  lemma OneMoreAnswer(l: Loop, acts: seq<Act>, a: Act)
    requires AllAnswered(l, acts) && !a.SyncFailed?
    requires var before := L.After(l, acts);
             a.Answered? && before.phase.Sending? && !before.phase.payload.status.Running? ==>
               before.phase.payload.seqNo <= a.lastSyncSeq
    ensures AllAnswered(l, acts + [a])
  {
    assert (acts + [a])[..|acts + [a]| - 1] == acts;
  }

  /**
   Main result: against this server, whatever else it does, with every request
   answered the loop is out within two rounds and four steps of the moment the
   terminal status was set, also when a cancellation or a sweep got in first.
   */
  lemma LoopExitsWithThisServer(cfg: Config, g: Grant, x: System, past: seq<Move>, ms: seq<Move>)
    requires JustClaimed(g, x) && Runs(cfg, g, x, past + ms) && ServerAnswers(ms)
    requires !After(cfg, g, x, past).loop.status.Running? && !TerminalTaken(INITIAL, Locals(past))
    ensures var l, t := After(cfg, g, x, past).loop, After(cfg, g, x, past + ms).loop;
            && Remaining(t) + |Locals(ms)| <= Remaining(l) <= 4
            && Rounds(l, Locals(ms)) + RoundsLeft(t) <= 2
            && Prompt(t)
  {
    hide Make, Possible, Good;
    RunSplits(cfg, g, x, past, ms);
    LoopRunsAlone(cfg, g, x, past);
    EveryRunIsGood(cfg, g, x, past);
    AnswersLetTheLoopExit(cfg, g, After(cfg, g, x, past), ms);
    ExitsWithinTwoRounds(Locals(past), Locals(ms));
  }

  /** Every answered claim is such a starting point. */
  lemma ClaimStartsTheSystem(cfg: Config, w: World, a: Action)
    requires Inv(w) && Legal(w, a) && a.event.Claim? && ReplyTo(cfg, w, a).Claimed?
    ensures JustClaimed(Grant(a.event.pick, a.event.runner, a.event.token),
                        System(Next(cfg, w, a), INITIAL, {}, {}, false, false, false))
  {
    StepKeepsInv(cfg, w, a);
  }
}
