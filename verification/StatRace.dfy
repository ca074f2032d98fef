/**
 The reporter over a whole run when an append-only file may grow between the stat
 and the read of one flush: which bytes are then sent twice.
 */
module StatRace {
  import opened Options
  import opened ControlPlane
  import opened Reporter

  /** One flush: the size stat saw, how much the read got, and whether the push was accepted. */
  datatype Pass = Pass(statted: nat, read: nat, accepted: bool)

  /** An accepted push of the bytes lo..hi, after which the reporter's offset is `statted`. */
  datatype Piece = Piece(lo: nat, statted: nat, hi: nat)

  datatype Progress = Progress(file: FileState, pieces: seq<Piece>)

  function SeenBy(whole: Bytes, p: Pass): Seen
    requires p.read <= |whole|
  {
    Seen(p.statted, whole[..p.read])
  }

  function Flush(whole: Bytes, path: string, g: Progress, p: Pass): Progress
    requires p.read <= |whole|
  {
    var seen := SeenBy(whole, p);
    Progress(FlushOne(g.file, path, Append, Some(seen), p.accepted),
             if p.accepted && Payload(g.file, path, Append, seen).Some?
             then g.pieces + [Piece(ReadFrom(g.file, Append, p.statted), p.statted, p.read)] else g.pieces)
  }

  /** The file only grows: within a pass, from pass to pass, towards `whole`. */
  ghost predicate Grows(whole: Bytes, passes: seq<Pass>) {
    && (forall i | 0 <= i < |passes| :: passes[i].statted <= passes[i].read <= |whole|)
    && (forall i, k | 0 <= i < k < |passes| :: passes[i].read <= passes[k].statted)
  }

  function Run(whole: Bytes, path: string, passes: seq<Pass>): Progress
    requires forall i | 0 <= i < |passes| :: passes[i].read <= |whole|
  {
    if passes == [] then Progress(UNSENT, [])
    else Flush(whole, path, Run(whole, path, passes[..|passes| - 1]), passes[|passes| - 1])
  }

  /** Each piece starts at the size the one before had statted, and no later read is shorter. */
  ghost predicate Chained(ps: seq<Piece>) {
    && (forall i | 0 <= i < |ps| :: ps[i].lo < ps[i].statted <= ps[i].hi)
    && (forall i | 0 <= i < |ps| - 1 :: ps[i + 1].lo == ps[i].statted)
    && (forall i, k | 0 <= i < k < |ps| :: ps[i].hi <= ps[k].statted)
    && (ps != [] ==> ps[0].lo == 0)
  }

  ghost predicate InStep(g: Progress, read: nat) {
    && Chained(g.pieces)
    && g.file.offset == (if g.pieces == [] then 0 else g.pieces[|g.pieces| - 1].statted)
    && (forall i | 0 <= i < |g.pieces| :: g.pieces[i].hi <= read)
  }

  lemma {:induction false} RunsAreChained(whole: Bytes, path: string, passes: seq<Pass>)
    requires Grows(whole, passes)
    ensures InStep(Run(whole, path, passes), if passes == [] then 0 else passes[|passes| - 1].read)
  {
    if passes != [] {
      var front, p := passes[..|passes| - 1], passes[|passes| - 1];
      assert forall i | 0 <= i < |front| :: front[i] == passes[i];
      RunsAreChained(whole, path, front);
      FlushKeepsStep(whole, path, Run(whole, path, front), p, if front == [] then 0 else front[|front| - 1].read);
    }
  }

  /** A flush of a grown file either changes nothing here or sends on from the offset. */
  lemma FlushEffect(whole: Bytes, path: string, g: Progress, p: Pass)
    requires g.file.offset <= p.statted <= p.read <= |whole|
    ensures var h := Flush(whole, path, g, p);
            if p.accepted && g.file.offset < p.statted then
              h.file.offset == p.statted && h.pieces == g.pieces + [Piece(g.file.offset, p.statted, p.read)]
            else h.file.offset == g.file.offset && h.pieces == g.pieces
  {
  }

  lemma FlushKeepsStep(whole: Bytes, path: string, g: Progress, p: Pass, before: nat)
    requires InStep(g, before) && before <= p.statted <= p.read <= |whole|
    ensures InStep(Flush(whole, path, g, p), p.read)
  {
    hide Flush;
    var n := |g.pieces|;
    if n > 0 { assert g.pieces[n - 1].hi <= before; }
    FlushEffect(whole, path, g, p);
  }

  /** How many accepted pushes carried byte `b`. */
  function Times(ps: seq<Piece>, b: nat): nat {
    if ps == [] then 0
    else
      var last := ps[|ps| - 1];
      Times(ps[..|ps| - 1], b) + if last.lo <= b < last.hi then 1 else 0
  }

  /** Byte `b` appeared between stat and read of an accepted push that another one followed. */
  ghost predicate Raced(ps: seq<Piece>, b: nat) {
    exists i | 0 <= i < |ps| - 1 :: ps[i].statted <= b < ps[i].hi
  }

  function EndOf(ps: seq<Piece>): nat {
    if ps == [] then 0 else ps[|ps| - 1].hi
  }

  lemma TimesOneMore(ps: seq<Piece>, b: nat)
    requires ps != []
    ensures var n := |ps| - 1;
            Times(ps, b) == Times(ps[..n], b) + if ps[n].lo <= b < ps[n].hi then 1 else 0
  {
  }

  /** Only the piece before the last can newly be raced, and no byte is raced twice. */
  lemma RacedOneMore(ps: seq<Piece>, b: nat)
    requires Chained(ps) && |ps| > 1
    ensures var n := |ps| - 1;
            && (Raced(ps, b) <==> Raced(ps[..n], b) || ps[n - 1].statted <= b < ps[n - 1].hi)
            && (Raced(ps[..n], b) ==> b < ps[n].lo)
  {
    var n := |ps| - 1;
    var front := ps[..n];
    if Raced(front, b) {
      var i :| 0 <= i < |front| - 1 && front[i].statted <= b < front[i].hi;
      assert ps[i] == front[i] && ps[n - 1 + 1].lo == ps[n - 1].statted;
    }
    if Raced(ps, b) {
      var i :| 0 <= i < |ps| - 1 && ps[i].statted <= b < ps[i].hi;
      assert i < n - 1 ==> front[i] == ps[i];
    }
  }

  lemma ChainedFront(ps: seq<Piece>)
    requires Chained(ps) && ps != []
    ensures Chained(ps[..|ps| - 1])
    ensures var last := ps[|ps| - 1];
            && last.lo < last.statted <= last.hi
            && (if |ps| == 1 then last.lo == 0
                else last.lo == ps[|ps| - 2].statted && ps[|ps| - 2].hi <= last.statted)
  {
  }

  lemma {:induction false} TimesOf(ps: seq<Piece>, b: nat)
    requires Chained(ps)
    ensures Times(ps, b) == if b >= EndOf(ps) then 0 else if Raced(ps, b) then 2 else 1
  {
    if ps != [] {
      var n := |ps| - 1;
      ChainedFront(ps);
      TimesOf(ps[..n], b);
      TimesOneMore(ps, b);
      if n > 0 { RacedOneMore(ps, b); }
      hide Times, Chained, Raced;
      assert n > 0 ==> EndOf(ps[..n]) == ps[n - 1].hi;
      if n == 0 { NothingRaced(ps, b); }
    }
  }

  lemma NothingRaced(ps: seq<Piece>, b: nat)
    requires |ps| == 1
    ensures !Raced(ps, b) && ps[..0] == []
  {
  }

  /**
   Main result: whatever flushes fail, each byte up to the end of the last accepted
   push was sent in accepted pushes once, or twice exactly if it appeared between the
   stat and the read of one that another followed; never more often, and nothing else.
   */
  lemma SentOnceOrTwice(whole: Bytes, path: string, passes: seq<Pass>, b: nat)
    requires Grows(whole, passes)
    ensures var ps := Run(whole, path, passes).pieces;
            Times(ps, b) == if b >= EndOf(ps) then 0 else if Raced(ps, b) then 2 else 1
  {
    RunsAreChained(whole, path, passes);
    TimesOf(Run(whole, path, passes).pieces, b);
  }

  /** Stat and read agreeing in every flush, every byte is sent once. */
  lemma AgreementSendsOnce(whole: Bytes, path: string, passes: seq<Pass>, b: nat)
    requires Grows(whole, passes) && forall i | 0 <= i < |passes| :: passes[i].statted == passes[i].read
    ensures var ps := Run(whole, path, passes).pieces;
            Times(ps, b) == (if b < EndOf(ps) then 1 else 0) && EndOf(ps) == Run(whole, path, passes).file.offset
  {
    RunsAreChained(whole, path, passes);
    SentOnceOrTwice(whole, path, passes, b);
    PiecesAgree(whole, path, passes);
  }

  ghost predicate AllAgree(ps: seq<Piece>) {
    forall i | 0 <= i < |ps| :: ps[i].statted == ps[i].hi
  }

  lemma {:induction false} PiecesAgree(whole: Bytes, path: string, passes: seq<Pass>)
    requires Grows(whole, passes) && forall i | 0 <= i < |passes| :: passes[i].statted == passes[i].read
    ensures AllAgree(Run(whole, path, passes).pieces)
  {
    hide Flush;
    if passes != [] {
      var front, p := passes[..|passes| - 1], passes[|passes| - 1];
      assert forall i | 0 <= i < |front| :: front[i] == passes[i];
      PiecesAgree(whole, path, front);
      var g := Run(whole, path, front);
      RunsAreChained(whole, path, front);
      if g.pieces != [] { assert g.pieces[|g.pieces| - 1].hi <= front[|front| - 1].read; }
      FlushEffect(whole, path, g, p);
    }
  }
}
