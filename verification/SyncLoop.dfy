/**
 The runner's state-sync loop: the `_SyncState` fields, the loop's suspension
 points, and what other coroutines may do while it is suspended.
 */
module SyncLoop {
  import opened Options
  import opened ControlPlane

  datatype Payload = Payload(seqNo: nat, status: Status, exitCode: Option<int>, message: Option<string>)

  /** Where the loop stands: about to test its condition, in a request, in the wait, or out. */
  datatype Phase = Top | Sending(payload: Payload) | Waiting | Exited

  datatype Loop = Loop(
    status: Status,
    exitCode: Option<int>,
    message: Option<string>,
    nextSeq: nat,
    wake: bool,
    acked: bool,
    phase: Phase)

  const INITIAL := Loop(Running, None, None, 1, false, false, Top)

  /** The last two are the other coroutines' moves; the rest are the loop's own. */
  datatype Act =
    | Snapshot
    | Answered(lastSyncSeq: int)
    | SyncFailed
    | Woken
    | TimedOut
    | SetTerminal(status: Status, exitCode: Option<int>, message: Option<string>)
    | ForceAck

  predicate Own(a: Act) {
    !a.SetTerminal? && !a.ForceAck?
  }

  predicate Enabled(l: Loop, a: Act) {
    match a
    case Snapshot => l.phase.Top?
    case Answered(_) => l.phase.Sending?
    case SyncFailed => l.phase.Sending?
    case Woken => l.phase.Waiting? && l.wake
    case TimedOut => l.phase.Waiting?
    case SetTerminal(status, _, _) => l.status.Running? && Terminal(status)
    case ForceAck => true
  }

  predicate Acknowledges(p: Payload, lastSyncSeq: int) {
    p.seqNo <= lastSyncSeq && !p.status.Running?
  }

  function Current(l: Loop): Payload {
    Payload(l.nextSeq, l.status, l.exitCode, l.message)
  }

  function Perform(l: Loop, a: Act): Loop
    requires Enabled(l, a)
  {
    match a
    case Snapshot =>
      if l.acked then l.(phase := Exited)
      else l.(phase := Sending(Current(l)), nextSeq := l.nextSeq + 1)
    case Answered(lastSyncSeq) =>
      var acked := l.acked || Acknowledges(l.phase.payload, lastSyncSeq);
      l.(acked := acked, phase := if acked then Exited else Waiting)
    case SyncFailed => l.(phase := if l.acked then Exited else Waiting)
    case Woken => l.(wake := false, phase := Top)
    case TimedOut => l.(phase := Top)
    case SetTerminal(status, exitCode, message) =>
      l.(status := status, exitCode := exitCode, message := message, wake := true)
    case ForceAck => l.(acked := true)
  }

  // ---------------------------------------------------------------- runs of the loop

  ghost predicate EnabledAll(l: Loop, acts: seq<Act>) {
    acts == [] || (EnabledAll(l, acts[..|acts| - 1]) && Enabled(After(l, acts[..|acts| - 1]), acts[|acts| - 1]))
  }

  ghost function After(l: Loop, acts: seq<Act>): Loop {
    if acts == [] then l
    else
      var before := After(l, acts[..|acts| - 1]);
      if Enabled(before, acts[|acts| - 1]) then Perform(before, acts[|acts| - 1]) else before
  }

  /** How many requests the run saw through to an answer or a failure. */
  ghost function Rounds(l: Loop, acts: seq<Act>): nat {
    if acts == [] then 0
    else Rounds(l, acts[..|acts| - 1]) + (if acts[|acts| - 1].Answered? || acts[|acts| - 1].SyncFailed? then 1 else 0)
  }

  /** How many of them carried a "running" payload. */
  ghost function RunningRounds(l: Loop, acts: seq<Act>): nat {
    if acts == [] then 0
    else
      var before, a := After(l, acts[..|acts| - 1]), acts[|acts| - 1];
      RunningRounds(l, acts[..|acts| - 1]) +
      (if (a.Answered? || a.SyncFailed?) && before.phase.Sending? && before.phase.payload.status.Running? then 1 else 0)
  }

  /** Some payload taken so far was terminal. */
  ghost predicate TerminalTaken(l: Loop, acts: seq<Act>) {
    acts != [] &&
    (var before, a := After(l, acts[..|acts| - 1]), acts[|acts| - 1];
     TerminalTaken(l, acts[..|acts| - 1]) || (a.Snapshot? && !before.acked && !before.status.Running?))
  }

  /** The payload a Snapshot takes, if it takes one. */
  function Taken(l: Loop, a: Act): seq<Payload> {
    if a.Snapshot? && !l.acked then [Current(l)] else []
  }

  /** The payloads taken so far, in order. */
  ghost function Payloads(l: Loop, acts: seq<Act>): seq<Payload> {
    if acts == [] then []
    else Payloads(l, acts[..|acts| - 1]) + Taken(After(l, acts[..|acts| - 1]), acts[|acts| - 1])
  }

  function Settled(a: Act): seq<Option<int>> {
    match a
    case Answered(lastSyncSeq) => [Some(lastSyncSeq)]
    case SyncFailed => [None]
    case _ => []
  }

  /** The outcomes of the requests so far, in order; a failure is None. */
  ghost function Outcomes(acts: seq<Act>): seq<Option<int>> {
    if acts == [] then [] else Outcomes(acts[..|acts| - 1]) + Settled(acts[|acts| - 1])
  }

  /**
   What any run sends: payloads numbered 1, 2, 3, ..., first bare "running"
   ones, and from some point on always the one terminal payload.
   */
  lemma {:induction false} RunningThenTerminal(acts: seq<Act>)
    requires EnabledAll(INITIAL, acts)
    ensures var ps, l := Payloads(INITIAL, acts), After(INITIAL, acts);
            && l.nextSeq == |ps| + 1
            && (l.status.Running? ==> l.exitCode.None? && l.message.None?)
            && (forall i | 0 <= i < |ps| ::
                  && ps[i].seqNo == i + 1
                  && (if ps[i].status.Running? then ps[i].exitCode.None? && ps[i].message.None?
                      else ps[i] == Payload(i + 1, l.status, l.exitCode, l.message)))
            && (forall i, k | 0 <= i < k < |ps| :: ps[k].status.Running? ==> ps[i].status.Running?)
    decreases |acts|
  {
    if acts != [] { RunningThenTerminal(acts[..|acts| - 1]); }
  }

  // ---------------------------------------------------------------- no lost wake-up

  /** The loop never sits on a cleared event while a terminal status is still unsent. */
  lemma {:induction false} NoLostWakeUp(acts: seq<Act>)
    requires EnabledAll(INITIAL, acts) && !TerminalTaken(INITIAL, acts)
    ensures var l := After(INITIAL, acts);
            && (l.phase.Waiting? && !l.status.Running? ==> l.wake)
            && (l.phase.Sending? ==> l.phase.payload.status.Running?)
  {
    if acts != [] { NoLostWakeUp(acts[..|acts| - 1]); }
  }

  /**
   Once the terminal status is set, at most one more "running" payload
   completes, and only if it was already in flight.
   */
  lemma {:induction false} AtMostOneRunningRound(l: Loop, acts: seq<Act>)
    requires !l.status.Running? && EnabledAll(l, acts)
    ensures var inFlight := if l.phase.Sending? && l.phase.payload.status.Running? then 1 else 0;
            var t := After(l, acts);
            && RunningRounds(l, acts) +
               (if t.phase.Sending? && t.phase.payload.status.Running? then 1 else 0) <= inFlight
            && t.status == l.status && t.exitCode == l.exitCode && t.message == l.message
  {
    if acts != [] { AtMostOneRunningRound(l, acts[..|acts| - 1]); }
  }

  /** No request fails, and a terminal payload is answered by its own number or more. */
  ghost predicate AllAnswered(l: Loop, acts: seq<Act>) {
    acts != [] ==>
      && AllAnswered(l, acts[..|acts| - 1])
      && (var before, a := After(l, acts[..|acts| - 1]), acts[|acts| - 1];
          && !a.SyncFailed?
          && (a.Answered? && before.phase.Sending? && !before.phase.payload.status.Running? ==>
                before.phase.payload.seqNo <= a.lastSyncSeq))
  }

  /** Own steps left before the loop is out, if every request is answered. */
  function Remaining(l: Loop): nat {
    match l.phase
    case Exited => 0
    case Sending(p) => if p.status.Running? then 4 else 1
    case Top => 2
    case Waiting => 3
  }

  /** Requests still to be completed before the loop is out. */
  function RoundsLeft(l: Loop): nat {
    if l.phase.Exited? then 0
    else if l.phase.Sending? && l.phase.payload.status.Running? then 2
    else 1
  }

  /** The loop can move without waiting for its timer. */
  predicate Prompt(l: Loop) {
    l.phase.Waiting? ==> l.wake
  }

  /**
   Main result: from any reachable point where a terminal status has been set
   and not yet sent, with an answering server, the loop makes at most four more
   steps and two rounds before it is out, and it never needs its timer.
   */
  lemma {:induction false} ExitsWithinTwoRounds(past: seq<Act>, acts: seq<Act>)
    requires EnabledAll(INITIAL, past) && !TerminalTaken(INITIAL, past)
    requires !After(INITIAL, past).status.Running?
    requires var l := After(INITIAL, past); EnabledAll(l, acts) && AllAnswered(l, acts)
    requires forall i | 0 <= i < |acts| :: Own(acts[i])
    ensures var l := After(INITIAL, past);
            var t := After(l, acts);
            && Remaining(t) + |acts| <= Remaining(l) <= 4
            && Rounds(l, acts) + RoundsLeft(t) <= RoundsLeft(l) <= 2
            && Prompt(t)
  {
    var l := After(INITIAL, past);
    NoLostWakeUp(past);
    if acts != [] {
      var front := acts[..|acts| - 1];
      assert forall i | 0 <= i < |front| :: front[i] == acts[i];
      ExitsWithinTwoRounds(past, front);
      AtMostOneRunningRound(l, front);
    }
  }

  // ---------------------------------------------------------------- the running code

  /** `_SyncState`: mutable fields shared by the loop and the shutdown path. */
  class SyncState {
    var status: Status
    var exitCode: Option<int>
    var message: Option<string>
    var wakeEvent: bool
    var terminalAcked: bool
    var nextSeqNo: nat

    ghost function View(phase: Phase): Loop
      reads this
    {
      Loop(status, exitCode, message, nextSeqNo, wakeEvent, terminalAcked, phase)
    }

    constructor ()
      ensures View(Top) == INITIAL
    {
      status, exitCode, message := Running, None, None;
      wakeEvent, terminalAcked, nextSeqNo := false, false, 1;
    }

    method SetTerminal(newStatus: Status, newExitCode: Option<int>, newMessage: Option<string>)
      modifies this
      ensures View(Top) == old(View(Top)).(status := newStatus, exitCode := newExitCode,
                                           message := newMessage, wake := true)
    {
      status, exitCode, message := newStatus, newExitCode, newMessage;
      wakeEvent := true;
    }

    method NextSeq() returns (seqNo: nat)
      modifies this`nextSeqNo
      ensures seqNo == old(nextSeqNo) && nextSeqNo == old(nextSeqNo) + 1
    {
      seqNo := nextSeqNo;
      nextSeqNo := nextSeqNo + 1;
    }
  }

  /** What the shutdown path does while the loop is suspended at one await. */
  datatype Meanwhile =
    | Nothing
    | Finish(status: Status, exitCode: Option<int>, message: Option<string>)
    | GiveUp

  /** One pass of the loop: an answer or a failure, and whether the event won the race with the timer. */
  datatype Pass = Pass(during: Meanwhile, answer: Option<int>, waiting: Meanwhile, woken: bool)

  lemma OneMoreAct(l: Loop, acts: seq<Act>, a: Act)
    requires EnabledAll(l, acts) && Enabled(After(l, acts), a)
    ensures EnabledAll(l, acts + [a]) && After(l, acts + [a]) == Perform(After(l, acts), a)
    ensures Payloads(l, acts + [a]) == Payloads(l, acts) + Taken(After(l, acts), a)
    ensures Outcomes(acts + [a]) == Outcomes(acts) + Settled(a)
  {
    assert (acts + [a])[..|acts + [a]| - 1] == acts;
  }

  /** `set_terminal` is called once, with a terminal status. */
  function Moves(l: Loop, m: Meanwhile): seq<Act> {
    match m
    case Finish(status, exitCode, message) =>
      if l.status.Running? && Terminal(status) then [SetTerminal(status, exitCode, message)] else []
    case GiveUp => [ForceAck]
    case Nothing => []
  }

  /** `acts` is a run from `start` that has come to `l`, taken `ps` and settled `os`. */
  ghost predicate Reached(start: Loop, acts: seq<Act>, l: Loop, ps: seq<Payload>, os: seq<Option<int>>) {
    EnabledAll(start, acts) && After(start, acts) == l && Payloads(start, acts) == ps && Outcomes(acts) == os
  }

  lemma ReachNext(start: Loop, acts: seq<Act>, l: Loop, ps: seq<Payload>, os: seq<Option<int>>, a: Act)
    requires Reached(start, acts, l, ps, os) && Enabled(l, a)
    ensures Reached(start, acts + [a], Perform(l, a), ps + Taken(l, a), os + Settled(a))
  {
    hide EnabledAll, After, Payloads, Outcomes, Perform;
    OneMoreAct(start, acts, a);
  }

  method Suspend(state: SyncState, m: Meanwhile, ghost start: Loop, ghost acts: seq<Act>, ghost phase: Phase,
                 ghost ps: seq<Payload>, ghost os: seq<Option<int>>)
    returns (ghost more: seq<Act>)
    requires Reached(start, acts, state.View(phase), ps, os)
    modifies state
    ensures more == acts + Moves(old(state.View(phase)), m)
    ensures Reached(start, more, state.View(phase), ps, os)
    ensures state.nextSeqNo == old(state.nextSeqNo)
  {
    hide Reached;
    ghost var l := state.View(phase);
    more := acts;
    if m.Finish? && state.status.Running? && Terminal(m.status) {
      ReachNext(start, acts, l, ps, os, SetTerminal(m.status, m.exitCode, m.message));
      more := acts + [SetTerminal(m.status, m.exitCode, m.message)];
      state.SetTerminal(m.status, m.exitCode, m.message);
    } else if m.GiveUp? {
      ReachNext(start, acts, l, ps, os, ForceAck);
      more := acts + [ForceAck];
      state.terminalAcked := true;
    }
    assert ps + [] == ps && os + [] == os;
  }

  /** Take a payload, send it and settle its answer. */
  method Request(state: SyncState, pass: Pass, ghost start: Loop, ghost acts: seq<Act>,
                 ghost ps: seq<Payload>, ghost os: seq<Option<int>>)
    returns (payload: Payload, ghost more: seq<Act>)
    requires Reached(start, acts, state.View(Top), ps, os) && !state.terminalAcked
    modifies state
    ensures payload == Current(old(state.View(Top)))
    ensures acts <= more
    ensures Reached(start, more, state.View(if state.terminalAcked then Exited else Waiting),
                    ps + [payload], os + [pass.answer])
    ensures state.nextSeqNo == old(state.nextSeqNo) + 1
  {
    hide Reached;
    ReachNext(start, acts, state.View(Top), ps, os, Snapshot);
    more := acts + [Snapshot];
    assert os + [] == os;
    var seqNo := state.NextSeq();
    payload := Payload(seqNo, state.status, state.exitCode, state.message);
    more := Suspend(state, pass.during, start, more, Sending(payload), ps + [payload], os);
    more := Settle(state, payload, pass.answer, start, more, ps + [payload], os);
  }

  /** A failed request is logged; an answer is checked for the acknowledgement. */
  method Settle(state: SyncState, payload: Payload, answer: Option<int>, ghost start: Loop, ghost acts: seq<Act>,
                ghost ps: seq<Payload>, ghost os: seq<Option<int>>)
    returns (ghost more: seq<Act>)
    requires Reached(start, acts, state.View(Sending(payload)), ps, os)
    modifies state`terminalAcked
    ensures more == acts + [if answer.Some? then Answered(answer.value) else SyncFailed]
    ensures Reached(start, more, state.View(if state.terminalAcked then Exited else Waiting), ps, os + [answer])
    ensures state.terminalAcked <==>
              old(state.terminalAcked) || (answer.Some? && Acknowledges(payload, answer.value))
  {
    hide Reached;
    ghost var l := state.View(Sending(payload));
    assert ps + [] == ps;
    match answer {
      case Some(lastSyncSeq) =>
        ReachNext(start, acts, l, ps, os, Answered(lastSyncSeq));
        more := acts + [Answered(lastSyncSeq)];
        if payload.seqNo <= lastSyncSeq && payload.status != Running {
          state.terminalAcked := true;
        }
      case None =>
        ReachNext(start, acts, l, ps, os, SyncFailed);
        more := acts + [SyncFailed];
    }
  }

  /** Wait for the event or the timer; only the event's path clears it. */
  method AwaitWake(state: SyncState, pass: Pass, ghost start: Loop, ghost acts: seq<Act>,
                   ghost ps: seq<Payload>, ghost os: seq<Option<int>>)
    returns (ghost more: seq<Act>)
    requires Reached(start, acts, state.View(Waiting), ps, os)
    modifies state
    ensures var moves := Moves(old(state.View(Waiting)), pass.waiting);
            var isSet := old(state.wakeEvent) || (moves != [] && moves[0].SetTerminal?);
            && more == acts + moves + [if isSet && pass.woken then Woken else TimedOut]
            && (state.wakeEvent <==> isSet && !pass.woken)
    ensures Reached(start, more, state.View(Top), ps, os)
    ensures state.nextSeqNo == old(state.nextSeqNo)
  {
    more := Suspend(state, pass.waiting, start, acts, Waiting, ps, os);
    SuspendSetsEvent(start, acts, old(state.View(Waiting)), pass.waiting, ps, os);
    hide Reached;
    assert ps + [] == ps && os + [] == os;
    if state.wakeEvent && pass.woken {
      ReachNext(start, more, state.View(Waiting), ps, os, Woken);
      more := more + [Woken];
      state.wakeEvent := false;
    } else {
      ReachNext(start, more, state.View(Waiting), ps, os, TimedOut);
      more := more + [TimedOut];
    }
  }

  /** Of the moves made while the loop is suspended, only set_terminal sets the event. */
  lemma SuspendSetsEvent(start: Loop, acts: seq<Act>, l: Loop, m: Meanwhile, ps: seq<Payload>, os: seq<Option<int>>)
    requires Reached(start, acts, l, ps, os)
    ensures var moves := Moves(l, m);
            After(start, acts + moves).wake <==> l.wake || (moves != [] && moves[0].SetTerminal?)
  {
    var moves := Moves(l, m);
    if moves == [] {
      assert acts + moves == acts;
    } else {
      OneMoreAct(start, acts, moves[0]);
      assert moves == [moves[0]];
    }
  }

  /** The outcomes a script provides for its first `n` passes. */
  function Script(script: seq<Pass>, n: nat): seq<Option<int>>
    requires n <= |script|
  {
    seq(n, i requires 0 <= i < n => script[i].answer)
  }

  /**
   `_state_sync_loop` over any finite script of passes is a run of the machine
   above that sends what the machine takes, so what is proved of the payloads
   and rounds of those runs holds of the requests this loop makes.
   */
  method StateSyncLoop(state: SyncState, script: seq<Pass>)
    returns (sent: seq<Payload>, ghost acts: seq<Act>, ghost phase: Phase)
    modifies state
    ensures EnabledAll(old(state.View(Top)), acts) && After(old(state.View(Top)), acts) == state.View(phase)
    ensures sent == Payloads(old(state.View(Top)), acts)
    ensures |sent| <= |script| && Outcomes(acts) == Script(script, |sent|)
    ensures state.terminalAcked <==> phase.Exited?
    ensures !phase.Exited? ==> |sent| == |script|
  {
    ghost var start := state.View(Top);
    acts, phase, sent := [], Top, [];
    assert Script(script, 0) == [];
    var i := 0;
    while !state.terminalAcked && i < |script|
      invariant 0 <= i <= |script| && phase.Top? && |sent| == i
      invariant Reached(start, acts, state.View(phase), sent, Script(script, i))
    {
      hide Reached;
      assert Script(script, i + 1) == Script(script, i) + [script[i].answer];
      var payload;
      payload, acts := Request(state, script[i], start, acts, sent, Script(script, i));
      sent := sent + [payload];
      if state.terminalAcked {
        phase := Exited;
        Arrived(start, acts, state.View(phase), sent, Script(script, i + 1));
        return;
      }
      acts := AwaitWake(state, script[i], start, acts, sent, Script(script, i + 1));
      i := i + 1;
    }
    if state.terminalAcked {
      ReachNext(start, acts, state.View(Top), sent, Script(script, i), Snapshot);
      acts := acts + [Snapshot];
      phase := Exited;
    }
  }

  lemma Arrived(start: Loop, acts: seq<Act>, l: Loop, ps: seq<Payload>, os: seq<Option<int>>)
    requires Reached(start, acts, l, ps, os)
    ensures EnabledAll(start, acts) && After(start, acts) == l && Payloads(start, acts) == ps && Outcomes(acts) == os
  {
  }
}
