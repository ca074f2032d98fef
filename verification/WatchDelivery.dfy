/**
 End-to-end delivery of one watched file, which is rewritten in place and pushed
 whole.  Full writes carry no sequence number, so a late copy of an older push
 puts old content back; the theorems say what is stored and when it is the latest.
 */
module WatchDelivery {
  import opened Options
  import opened ControlPlane
  import opened JobInvariant
  import R = Reporter
  import D = LogDelivery
  import F = Fencing

  /**
   `sent` lists the contents pushed so far; `answered` are the pushes some copy of
   which was answered, and `last` is the push a copy of which was written last.
   */
  datatype System = System(
    world: World,
    content: Bytes,
    sent: seq<Bytes>,
    inFlight: bool,
    answered: set<nat>,
    last: Option<nat>)

  datatype Move =
    | Rewrite(content: Bytes)
    | Send
    | Acknowledge
    | GiveUp
    | Deliver(push: nat, now: Time, opens: bool)
    | Other(action: Action)

  /** The payload of a flush: the whole file, unless it is empty. */
  function Flushed(k: D.Link, x: System): Option<R.Sent> {
    R.Payload(R.UNSENT, k.path, Full, R.Seen(|x.content|, x.content))
  }

  function Request(k: D.Link, content: Bytes, now: Time, opens: bool): Action {
    Action(now, Push(k.runner, k.job, k.token, k.path, Full, content, None, opens))
  }

  ghost predicate Possible(k: D.Link, x: System, m: Move) {
    match m
    case Rewrite(_) => true
    case Send => !x.inFlight && Flushed(k, x).Some?
    case Acknowledge => x.inFlight && x.sent != [] && |x.sent| - 1 in x.answered
    case GiveUp => x.inFlight
    case Deliver(i, now, opens) => i < |x.sent| && Legal(x.world, Request(k, x.sent[i], now, opens))
    case Other(a) =>
      Legal(x.world, a) && !(a.event.Push? && a.event.token == k.token && Parts(a.event.path) == Parts(k.path))
  }

  function Make(cfg: Config, k: D.Link, x: System, m: Move): System
    requires m.Send? ==> Flushed(k, x).Some?
    requires m.Deliver? ==> m.push < |x.sent|
  {
    match m
    case Rewrite(content) => x.(content := content)
    case Send => x.(inFlight := true, sent := x.sent + [Flushed(k, x).value.content])
    case Acknowledge => x.(inFlight := false)
    case GiveUp => x.(inFlight := false)
    case Deliver(i, now, opens) =>
      var a := Request(k, x.sent[i], now, opens);
      var written := ReplyTo(cfg, x.world, a) == FileApplied(true);
      x.(world := Next(cfg, x.world, a),
         answered := if written then x.answered + {i} else x.answered,
         last := if written then Some(i) else x.last)
    case Other(a) => x.(world := Next(cfg, x.world, a))
  }

  function StoredFile(k: D.Link, x: System): Option<Bytes> {
    Cell(x.world.server.pushed, k.job, Parts(k.path))
  }

  /** What push i leaves in the stored file. */
  function Kept(cfg: Config, x: System, i: nat): Bytes
    requires i < |x.sent|
  {
    Tail(x.sent[i], cfg.fullMaxBytes)
  }

  // ---------------------------------------------------------------- the invariant

  ghost predicate Good(cfg: Config, k: D.Link, x: System) {
    var s := x.world.server;
    && Inv(x.world) && k.token in x.world.issued && SafePath(k.path)
    && (x.last.Some? ==> x.last.value < |x.sent|)
    && (forall i | i in x.answered :: i < |x.sent|)
    && (Holds(s, k.job, k.token) ==>
          && s.jobs[k.job].runnerId == Some(k.runner)
          && StoredFile(k, x) == if x.last.Some? then Some(Kept(cfg, x, x.last.value)) else None)
  }

  lemma FullPushEffect(cfg: Config, k: D.Link, s: Server, content: Bytes, now: Time, opens: bool)
    requires Holds(s, k.job, k.token) && s.jobs[k.job].runnerId == Some(k.runner) && SafePath(k.path)
    ensures var r := Step(cfg, s, now, Request(k, content, now, opens).event);
            && r.reply == (if opens then FileApplied(true) else ServerError)
            && r.server.jobs == s.jobs
            && Cell(r.server.pushed, k.job, Parts(k.path)) ==
               if opens then Some(Tail(content, cfg.fullMaxBytes)) else Cell(s.pushed, k.job, Parts(k.path))
  {
    hide Parts, SafePath, Tail;
  }

  lemma DeliverKeepsGood(cfg: Config, k: D.Link, x: System, i: nat, now: Time, opens: bool)
    requires Good(cfg, k, x) && Possible(k, x, Deliver(i, now, opens))
    ensures Good(cfg, k, Make(cfg, k, x, Deliver(i, now, opens)))
  {
    hide Step, Inv, Legal;
    var a := Request(k, x.sent[i], now, opens);
    StepKeepsInv(cfg, x.world, a);
    if Holds(x.world.server, k.job, k.token) {
      FullPushEffect(cfg, k, x.world.server, x.sent[i], now, opens);
    } else {
      F.UnheldIsRejected(cfg, x.world.server, now, a.event);
    }
  }

  lemma MoveKeepsGood(cfg: Config, k: D.Link, x: System, m: Move)
    requires Good(cfg, k, x) && Possible(k, x, m)
    ensures Good(cfg, k, Make(cfg, k, x, m))
  {
    hide Step, Inv, Legal;
    match m
    case Deliver(i, now, opens) => DeliverKeepsGood(cfg, k, x, i, now, opens);
    case Other(a) =>
      StepKeepsInv(cfg, x.world, a);
      D.OtherStepsSpareTheFile(cfg, x.world, a, k);
    case _ =>
  }

  // ---------------------------------------------------------------- all runs

  ghost predicate JustClaimed(k: D.Link, x: System) {
    && Inv(x.world) && k.token in x.world.issued && SafePath(k.path)
    && Holds(x.world.server, k.job, k.token)
    && x.world.server.jobs[k.job].runnerId == Some(k.runner)
    && Stored(x.world.server, k.job) == NOTHING_STORED
    && x.sent == [] && !x.inFlight && x.answered == {} && x.last.None?
  }

  ghost function After(cfg: Config, k: D.Link, x: System, ms: seq<Move>): System {
    if ms == [] then x
    else
      var before, m := After(cfg, k, x, ms[..|ms| - 1]), ms[|ms| - 1];
      if Possible(k, before, m) then Make(cfg, k, before, m) else before
  }

  ghost predicate Runs(cfg: Config, k: D.Link, x: System, ms: seq<Move>) {
    ms != [] ==>
      && Runs(cfg, k, x, ms[..|ms| - 1])
      && Possible(k, After(cfg, k, x, ms[..|ms| - 1]), ms[|ms| - 1])
  }

  lemma {:induction false} EveryRunIsGood(cfg: Config, k: D.Link, x: System, ms: seq<Move>)
    requires JustClaimed(k, x) && Runs(cfg, k, x, ms)
    ensures Good(cfg, k, After(cfg, k, x, ms))
  {
    hide Make, Possible;
    if ms != [] {
      EveryRunIsGood(cfg, k, x, ms[..|ms| - 1]);
      MoveKeepsGood(cfg, k, After(cfg, k, x, ms[..|ms| - 1]), ms[|ms| - 1]);
    }
  }

  /**
   Main result: at every point of every run on which the lease stands, the stored
   file is the tail of one whole content sent under it, never a mixture; and it is
   that of the latest content exactly when the push written last left the same tail.
   */
  lemma StoredIsOneSend(cfg: Config, k: D.Link, x: System, ms: seq<Move>)
    requires JustClaimed(k, x) && Runs(cfg, k, x, ms)
    requires Holds(After(cfg, k, x, ms).world.server, k.job, k.token)
    ensures var y := After(cfg, k, x, ms);
            && (y.last.None? ==> StoredFile(k, y).None?)
            && (y.last.Some? ==> y.last.value < |y.sent| && StoredFile(k, y) == Some(Kept(cfg, y, y.last.value)))
            && (y.last.Some? ==>
                  (StoredFile(k, y) == Some(Kept(cfg, y, |y.sent| - 1)) <==>
                   Kept(cfg, y, y.last.value) == Kept(cfg, y, |y.sent| - 1)))
  {
    EveryRunIsGood(cfg, k, x, ms);
  }

  /** No copy of a push arrives after a copy of a later one. */
  ghost predicate InOrder(ms: seq<Move>) {
    forall p, q | 0 <= p < q < |ms| && ms[p].Deliver? && ms[q].Deliver? :: ms[p].push <= ms[q].push
  }

  lemma {:induction false} InOrderLastIsLargest(cfg: Config, k: D.Link, x: System, ms: seq<Move>)
    requires x.last.None? && x.answered == {} && Runs(cfg, k, x, ms) && InOrder(ms)
    ensures var y := After(cfg, k, x, ms);
            && (forall i | i in y.answered :: y.last.Some? && i <= y.last.value)
            && (y.last.Some? ==> y.last.value in y.answered)
            && (y.last.Some? ==> exists p | 0 <= p < |ms| :: ms[p].Deliver? && ms[p].push == y.last.value)
    decreases |ms|
  {
    hide Step;
    if ms != [] {
      var front, m := ms[..|ms| - 1], ms[|ms| - 1];
      assert forall p | 0 <= p < |front| :: front[p] == ms[p];
      InOrderLastIsLargest(cfg, k, x, front);
      var before := After(cfg, k, x, front);
      if before.last.Some? {
        var p :| 0 <= p < |front| && front[p].Deliver? && front[p].push == before.last.value;
        assert ms[p] == front[p];
      }
      if m.Deliver? { assert ms[|ms| - 1].Deliver? && ms[|ms| - 1].push == m.push; }
    }
  }

  /**
   Main result: as long as no copy of an older push overtakes, an answered latest
   push is what is stored.
   */
  lemma InOrderStoresLatest(cfg: Config, k: D.Link, x: System, ms: seq<Move>)
    requires JustClaimed(k, x) && Runs(cfg, k, x, ms) && InOrder(ms)
    requires var y := After(cfg, k, x, ms);
             Holds(y.world.server, k.job, k.token) && y.sent != [] && |y.sent| - 1 in y.answered
    ensures var y := After(cfg, k, x, ms);
            StoredFile(k, y) == Some(Kept(cfg, y, |y.sent| - 1))
  {
    hide Make, Possible, Kept;
    EveryRunIsGood(cfg, k, x, ms);
    InOrderLastIsLargest(cfg, k, x, ms);
  }

  lemma OneMore(cfg: Config, k: D.Link, x: System, ms: seq<Move>, m: Move)
    requires Runs(cfg, k, x, ms) && Possible(k, After(cfg, k, x, ms), m)
    ensures Runs(cfg, k, x, ms + [m])
    ensures After(cfg, k, x, ms + [m]) == Make(cfg, k, After(cfg, k, x, ms), m)
  {
    assert (ms + [m])[..|ms + [m]| - 1] == ms;
  }

  /** Written and answered: what one delivery does under the lease. */
  lemma DeliverWrites(cfg: Config, k: D.Link, x: System, i: nat, now: Time)
    requires Good(cfg, k, x) && Holds(x.world.server, k.job, k.token) && i < |x.sent| && x.world.clock <= now
    ensures Possible(k, x, Deliver(i, now, true))
    ensures var y := Make(cfg, k, x, Deliver(i, now, true));
            && y == x.(world := y.world, answered := x.answered + {i}, last := Some(i))
            && Holds(y.world.server, k.job, k.token) && y.world.clock == now
  {
    hide Step, Inv;
    FullPushEffect(cfg, k, x.world.server, x.sent[i], now, true);
  }

  /** From any quiet point, new content goes out. */
  lemma SendNew(cfg: Config, k: D.Link, x: System, ms: seq<Move>, content: Bytes)
    requires Runs(cfg, k, x, ms) && content != [] && !After(cfg, k, x, ms).inFlight
    ensures var y := After(cfg, k, x, ms);
            && Runs(cfg, k, x, ms + [Rewrite(content), Send])
            && After(cfg, k, x, ms + [Rewrite(content), Send]) ==
               y.(content := content, inFlight := true, sent := y.sent + [content])
  {
    hide Step;
    OneMore(cfg, k, x, ms, Rewrite(content));
    OneMore(cfg, k, x, ms + [Rewrite(content)], Send);
    assert ms + [Rewrite(content)] + [Send] == ms + [Rewrite(content), Send];
  }

  /** And a copy of it is written and answered. */
  lemma SendAndWrite(cfg: Config, k: D.Link, x: System, ms: seq<Move>, content: Bytes, now: Time)
    requires JustClaimed(k, x) && Runs(cfg, k, x, ms) && content != []
    requires var y := After(cfg, k, x, ms);
             !y.inFlight && Holds(y.world.server, k.job, k.token) && y.world.clock <= now
    ensures var y := After(cfg, k, x, ms);
            var n := |y.sent|;
            var more := [Rewrite(content), Send, Deliver(n, now, true), Acknowledge];
            var z := After(cfg, k, x, ms + more);
            && Runs(cfg, k, x, ms + more)
            && z == System(z.world, content, y.sent + [content], false, y.answered + {n}, Some(n))
            && Holds(z.world.server, k.job, k.token) && z.world.clock == now
  {
    hide Step, Inv, Good, JustClaimed, Runs, After;
    var n := |After(cfg, k, x, ms).sent|;
    SendNew(cfg, k, x, ms, content);
    var m2 := ms + [Rewrite(content), Send];
    EveryRunIsGood(cfg, k, x, m2);
    DeliverWrites(cfg, k, After(cfg, k, x, m2), n, now);
    OneMore(cfg, k, x, m2, Deliver(n, now, true));
    var m3 := m2 + [Deliver(n, now, true)];
    OneMore(cfg, k, x, m3, Acknowledge);
    assert m3 + [Acknowledge] == ms + [Rewrite(content), Send, Deliver(n, now, true), Acknowledge];
  }

  /** A late copy of an older push puts old content back, with nothing in flight and everything answered. */
  lemma LateCopyPutsOldContentBack(cfg: Config, k: D.Link, x: System, a: Bytes, b: Bytes, now: Time)
    requires JustClaimed(k, x) && a != [] && b != [] && x.world.clock <= now
    ensures var ms := [Rewrite(a), Send, Deliver(0, now, true), Acknowledge,
                       Rewrite(b), Send, Deliver(1, now, true), Acknowledge, Deliver(0, now, true)];
            var y := After(cfg, k, x, ms);
            && Runs(cfg, k, x, ms) && y.content == b && y.sent == [a, b] && !y.inFlight && y.answered == {0, 1}
            && StoredFile(k, y) == Some(Tail(a, cfg.fullMaxBytes))
  {
    hide Step, Inv, Good, JustClaimed, Runs, After, Make;
    StartIsQuiet(cfg, k, x);
    var m1 := [Rewrite(a), Send, Deliver(0, now, true), Acknowledge];
    SendAndWrite(cfg, k, x, [], a, now);
    assert [] + m1 == m1 && [] + [a] == [a] && {} + {0} == {0};
    var m2 := m1 + [Rewrite(b), Send, Deliver(1, now, true), Acknowledge];
    SendAndWrite(cfg, k, x, m1, b, now);
    EveryRunIsGood(cfg, k, x, m2);
    DeliverWrites(cfg, k, After(cfg, k, x, m2), 0, now);
    OneMore(cfg, k, x, m2, Deliver(0, now, true));
    var m3 := m2 + [Deliver(0, now, true)];
    assert m3 == [Rewrite(a), Send, Deliver(0, now, true), Acknowledge,
                  Rewrite(b), Send, Deliver(1, now, true), Acknowledge, Deliver(0, now, true)];
    StoredIsOneSend(cfg, k, x, m3);
  }

  lemma StartIsQuiet(cfg: Config, k: D.Link, x: System)
    requires JustClaimed(k, x)
    ensures Runs(cfg, k, x, []) && After(cfg, k, x, []) == x
    ensures x.sent == [] && !x.inFlight && x.answered == {} && Holds(x.world.server, k.job, k.token)
  {
  }

  /** Every answered claim is such a starting point, for every watched file of the job. */
  lemma ClaimStartsTheSystem(cfg: Config, w: World, a: Action, path: string, content: Bytes)
    requires Inv(w) && Legal(w, a) && a.event.Claim? && a.event.cut.Whole? && ReplyTo(cfg, w, a).Claimed?
    requires SafePath(path)
    ensures JustClaimed(D.Link(a.event.pick, a.event.runner, a.event.token, path),
                        System(Next(cfg, w, a), content, [], false, {}, None))
  {
    StepKeepsInv(cfg, w, a);
  }
}
