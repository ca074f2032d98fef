/**
 The stat/read race of one append-only file, composed with the control plane: what
 the stored file then holds.  Here a push either reaches the server once and is
 answered, or does not reach it at all; LogDelivery has the network's other tricks.
 */
module RacedDelivery {
  import opened Options
  import opened ControlPlane
  import opened JobInvariant
  import opened StatRace
  import R = Reporter
  import D = LogDelivery

  /** `whole` is what the file will have become in the end, `seen` how far it was read at most. */
  datatype System = System(world: World, whole: Bytes, progress: Progress, seen: nat)

  datatype Move = Pushed(pass: Pass, now: Time) | Other(action: Action)

  function PushOf(k: D.Link, x: System, p: Pass): Option<R.Sent>
    requires p.read <= |x.whole|
  {
    R.Payload(x.progress.file, k.path, Append, SeenBy(x.whole, p))
  }

  function Request(k: D.Link, sent: R.Sent, now: Time): Action {
    var number := if sent.chunkSeq.Some? then Some(sent.chunkSeq.value as int) else None;
    Action(now, Push(k.runner, k.job, k.token, k.path, Append, sent.content, number, true))
  }

  /** A pass whose push is accepted had it answered by the lease's job. */
  ghost predicate Possible(k: D.Link, x: System, m: Move) {
    match m
    case Pushed(p, now) =>
      && x.seen <= p.statted <= p.read <= |x.whole|
      && (p.accepted && PushOf(k, x, p).Some? ==>
            Holds(x.world.server, k.job, k.token) && Legal(x.world, Request(k, PushOf(k, x, p).value, now)))
    case Other(a) =>
      Legal(x.world, a) && !(a.event.Push? && a.event.token == k.token && Parts(a.event.path) == Parts(k.path))
  }

  function Make(cfg: Config, k: D.Link, x: System, m: Move): System
    requires m.Pushed? ==> m.pass.read <= |x.whole|
  {
    match m
    case Pushed(p, now) =>
      x.(progress := Flush(x.whole, k.path, x.progress, p),
         seen := p.read,
         world := if p.accepted && PushOf(k, x, p).Some?
                  then Next(cfg, x.world, Request(k, PushOf(k, x, p).value, now)) else x.world)
    case Other(a) => x.(world := Next(cfg, x.world, a))
  }

  /** The bytes of the pieces, one after the other. */
  function Spelled(whole: Bytes, ps: seq<Piece>): Bytes {
    if ps == [] then []
    else
      var last := ps[|ps| - 1];
      Spelled(whole, ps[..|ps| - 1]) + if last.lo <= last.hi <= |whole| then whole[last.lo..last.hi] else []
  }

  /** How many bytes were sent a second time. */
  function Surplus(ps: seq<Piece>): nat
    requires Chained(ps)
  {
    if |ps| <= 1 then 0
    else
      var n := |ps| - 1;
      ChainedFront(ps);
      Surplus(ps[..n]) + (ps[n - 1].hi - ps[n - 1].statted)
  }

  lemma {:induction false} SpelledLength(whole: Bytes, ps: seq<Piece>)
    requires Chained(ps) && forall i | 0 <= i < |ps| :: ps[i].hi <= |whole|
    ensures |Spelled(whole, ps)| == EndOf(ps) + Surplus(ps)
  {
    if ps != [] {
      var n := |ps| - 1;
      ChainedFront(ps);
      assert forall i | 0 <= i < n :: ps[..n][i] == ps[i];
      SpelledLength(whole, ps[..n]);
    }
  }

  /** Without a surplus the pieces spell the file, and otherwise they cannot. */
  lemma {:induction false} SpelledIsPrefixIff(whole: Bytes, ps: seq<Piece>)
    requires Chained(ps) && forall i | 0 <= i < |ps| :: ps[i].hi <= |whole|
    ensures EndOf(ps) <= |whole|
    ensures Spelled(whole, ps) == whole[..EndOf(ps)] <==> Surplus(ps) == 0
  {
    SpelledLength(whole, ps);
    if Surplus(ps) == 0 && ps != [] {
      var n := |ps| - 1;
      var last := ps[n];
      ChainedFront(ps);
      assert forall i | 0 <= i < n :: ps[..n][i] == ps[i];
      SpelledIsPrefixIff(whole, ps[..n]);
      D.SliceAfterPrefix(whole, last.lo, last.hi);
    }
  }

  lemma {:induction false} NoSurplusIff(ps: seq<Piece>)
    requires Chained(ps)
    ensures Surplus(ps) == 0 <==> forall i | 0 <= i < |ps| - 1 :: ps[i].statted == ps[i].hi
  {
    if |ps| > 1 {
      var n := |ps| - 1;
      ChainedFront(ps);
      NoSurplusIff(ps[..n]);
      assert forall i | 0 <= i < n :: ps[..n][i] == ps[i];
    }
  }

  // ---------------------------------------------------------------- the invariant

  ghost predicate RemoteIs(k: D.Link, s: Server, whole: Bytes, ps: seq<Piece>) {
    && Cell(s.chunks, k.job, k.path) == (if ps == [] then None else Some(|ps|))
    && Cell(s.pushed, k.job, Parts(k.path)).GetOr([]) == Spelled(whole, ps)
  }

  ghost predicate Good(k: D.Link, x: System) {
    var s := x.world.server;
    && Inv(x.world) && k.token in x.world.issued && SafePath(k.path)
    && InStep(x.progress, x.seen) && x.seen <= |x.whole|
    && x.progress.file.nextSeq == |x.progress.pieces| + 1
    && (Holds(s, k.job, k.token) ==>
          s.jobs[k.job].runnerId == Some(k.runner) && RemoteIs(k, s, x.whole, x.progress.pieces))
  }

  /** What a flush sends, if it sends. */
  lemma PushIsPiece(k: D.Link, x: System, p: Pass)
    requires Good(k, x) && x.seen <= p.statted <= p.read <= |x.whole|
    ensures var g := x.progress;
            var h := Flush(x.whole, k.path, g, p);
            && g.file.offset <= x.seen
            && (PushOf(k, x, p).Some? <==> g.file.offset < p.statted)
            && (PushOf(k, x, p).Some? ==>
                  && PushOf(k, x, p).value.chunkSeq == Some(|g.pieces| + 1)
                  && PushOf(k, x, p).value.content == x.whole[g.file.offset..p.read])
            && h.file.nextSeq == |h.pieces| + 1
            && h.pieces == (if p.accepted && g.file.offset < p.statted
                            then g.pieces + [Piece(g.file.offset, p.statted, p.read)] else g.pieces)
  {
    hide Inv;
    var n := |x.progress.pieces|;
    if n > 0 { assert x.progress.pieces[n - 1].hi <= x.seen; }
    FlushEffect(x.whole, k.path, x.progress, p);
  }

  lemma SpelledOneMore(whole: Bytes, ps: seq<Piece>, p: Piece)
    requires p.lo <= p.hi <= |whole|
    ensures Spelled(whole, ps + [p]) == Spelled(whole, ps) + whole[p.lo..p.hi]
  {
    assert (ps + [p])[..|ps + [p]| - 1] == ps;
  }

  lemma PushKeepsGood(cfg: Config, k: D.Link, x: System, p: Pass, now: Time)
    requires Good(k, x) && Possible(k, x, Pushed(p, now))
    ensures Good(k, Make(cfg, k, x, Pushed(p, now)))
  {
    hide Step, Inv, Flush, InStep, Spelled;
    PushIsPiece(k, x, p);
    FlushKeepsStep(x.whole, k.path, x.progress, p, x.seen);
    if p.accepted && PushOf(k, x, p).Some? {
      var a := Request(k, PushOf(k, x, p).value, now);
      StepKeepsInv(cfg, x.world, a);
      D.PushEffect(cfg, x.world.server, now, a.event);
      SpelledOneMore(x.whole, x.progress.pieces, Piece(x.progress.file.offset, p.statted, p.read));
    }
  }

  lemma MoveKeepsGood(cfg: Config, k: D.Link, x: System, m: Move)
    requires Good(k, x) && Possible(k, x, m)
    ensures Good(k, Make(cfg, k, x, m))
  {
    hide Step, Inv, Legal, InStep, Flush;
    match m
    case Pushed(p, now) => PushKeepsGood(cfg, k, x, p, now);
    case Other(a) =>
      StepKeepsInv(cfg, x.world, a);
      D.OtherStepsSpareTheFile(cfg, x.world, a, k);
  }

  // ---------------------------------------------------------------- all runs

  ghost predicate JustClaimed(k: D.Link, x: System) {
    && Inv(x.world) && k.token in x.world.issued && SafePath(k.path)
    && Holds(x.world.server, k.job, k.token)
    && x.world.server.jobs[k.job].runnerId == Some(k.runner)
    && Stored(x.world.server, k.job) == NOTHING_STORED
    && x.progress == Progress(R.UNSENT, []) && x.seen == 0
  }

  ghost function After(cfg: Config, k: D.Link, x: System, ms: seq<Move>): System {
    if ms == [] then x
    else
      var before, m := After(cfg, k, x, ms[..|ms| - 1]), ms[|ms| - 1];
      if Possible(k, before, m) then Make(cfg, k, before, m) else before
  }

  ghost predicate Runs(cfg: Config, k: D.Link, x: System, ms: seq<Move>) {
    ms != [] ==>
      && Runs(cfg, k, x, ms[..|ms| - 1])
      && Possible(k, After(cfg, k, x, ms[..|ms| - 1]), ms[|ms| - 1])
  }

  lemma {:induction false} EveryRunIsGood(cfg: Config, k: D.Link, x: System, ms: seq<Move>)
    requires JustClaimed(k, x) && Runs(cfg, k, x, ms)
    ensures Good(k, After(cfg, k, x, ms))
  {
    hide Make, Possible;
    if ms != [] {
      EveryRunIsGood(cfg, k, x, ms[..|ms| - 1]);
      MoveKeepsGood(cfg, k, After(cfg, k, x, ms[..|ms| - 1]), ms[|ms| - 1]);
    }
  }

  /**
   Main result: while the lease stands, the stored file spells the accepted pieces in
   order; each byte is in it once, or twice exactly if it was raced; and the file is
   the local one up to the last accepted read exactly when no accepted push but the
   last read more than it had statted.
   */
  lemma StoredSpellsThePieces(cfg: Config, k: D.Link, x: System, ms: seq<Move>)
    requires JustClaimed(k, x) && Runs(cfg, k, x, ms)
    requires Holds(After(cfg, k, x, ms).world.server, k.job, k.token)
    ensures var y := After(cfg, k, x, ms);
            var ps := y.progress.pieces;
            var stored := Cell(y.world.server.pushed, k.job, Parts(k.path)).GetOr([]);
            && stored == Spelled(y.whole, ps) && EndOf(ps) <= |y.whole|
            && (forall b: nat :: Times(ps, b) == if b >= EndOf(ps) then 0 else if Raced(ps, b) then 2 else 1)
            && Chained(ps) && |stored| == EndOf(ps) + Surplus(ps)
            && (stored == y.whole[..EndOf(ps)] <==> forall i | 0 <= i < |ps| - 1 :: ps[i].statted == ps[i].hi)
  {
    hide Make, Possible;
    EveryRunIsGood(cfg, k, x, ms);
    PiecesSpell(After(cfg, k, x, ms).whole, After(cfg, k, x, ms).progress.pieces);
  }

  lemma PiecesSpell(whole: Bytes, ps: seq<Piece>)
    requires Chained(ps) && forall i | 0 <= i < |ps| :: ps[i].hi <= |whole|
    ensures forall b: nat :: Times(ps, b) == if b >= EndOf(ps) then 0 else if Raced(ps, b) then 2 else 1
    ensures |Spelled(whole, ps)| == EndOf(ps) + Surplus(ps) && EndOf(ps) <= |whole|
    ensures Spelled(whole, ps) == whole[..EndOf(ps)] <==> forall i | 0 <= i < |ps| - 1 :: ps[i].statted == ps[i].hi
  {
    forall b: nat ensures Times(ps, b) == if b >= EndOf(ps) then 0 else if Raced(ps, b) then 2 else 1 {
      TimesOf(ps, b);
    }
    SpelledLength(whole, ps);
    SpelledIsPrefixIff(whole, ps);
    NoSurplusIff(ps);
  }

  /** Every answered claim is such a starting point, for every file of the job. */
  lemma ClaimStartsTheSystem(cfg: Config, w: World, a: Action, path: string, whole: Bytes)
    requires Inv(w) && Legal(w, a) && a.event.Claim? && a.event.cut.Whole? && ReplyTo(cfg, w, a).Claimed?
    requires SafePath(path)
    ensures JustClaimed(D.Link(a.event.pick, a.event.runner, a.event.token, path),
                        System(Next(cfg, w, a), whole, Progress(R.UNSENT, []), 0))
  {
    StepKeepsInv(cfg, w, a);
  }
}
