/**
 End-to-end delivery of one append-only file: the reporter's offset and sequence
 number, an unreliable network and the control plane, together.  The network may
 deliver any chunk ever sent any number of times, in any order, at any time, and
 may lose any answer; the client may report a push as failed at any time.
 */
module LogDelivery {
  import opened Options
  import opened ControlPlane
  import opened JobInvariant
  import opened Reporter
  import F = Fencing

  /** The lease and the remote path of the file. */
  datatype Link = Link(job: JobId, runner: string, token: Token, path: string)

  /** The bytes lo..hi of the local file, pushed under a sequence number. */
  datatype Chunk = Chunk(seqNo: nat, lo: nat, hi: nat)

  /**
   `applied` lists the chunks whose number the server took and `acked` those whose
   push returned to the reporter, both in order; `failed` are the chunks some push
   of which was reported as failed; `lost` are the numbers that were taken although
   the file could not be opened, so that nothing was appended.
   */
  datatype System = System(
    world: World,
    local: Bytes,
    file: FileState,
    inFlight: Option<Chunk>,
    sent: set<Chunk>,
    answered: set<Chunk>,
    failed: set<Chunk>,
    applied: seq<Chunk>,
    acked: seq<Chunk>,
    lost: set<nat>)

  datatype Move =
    | Grow(more: Bytes)
    | Send
    | Acknowledge
    | GiveUp
    | Deliver(chunk: Chunk, now: Time, opens: bool)
    | Other(action: Action)

  /** The payload of a flush that stats and reads the same bytes. */
  function Flushed(k: Link, x: System): Option<Sent> {
    Payload(x.file, k.path, Append, Seen(|x.local|, x.local))
  }

  function NextChunk(k: Link, x: System): Chunk
    requires Flushed(k, x).Some?
  {
    Chunk(Flushed(k, x).value.chunkSeq.GetOr(0), ReadFrom(x.file, Append, |x.local|), |x.local|)
  }

  function Content(local: Bytes, c: Chunk): Bytes {
    if c.lo <= c.hi <= |local| then local[c.lo..c.hi] else []
  }

  function Request(k: Link, x: System, c: Chunk, now: Time, opens: bool): Action {
    Action(now, Push(k.runner, k.job, k.token, k.path, Append, Content(x.local, c), Some(c.seqNo), opens))
  }

  ghost predicate Possible(k: Link, x: System, m: Move) {
    match m
    case Grow(_) => true
    case Send => x.inFlight.None? && Flushed(k, x).Some?
    case Acknowledge => x.inFlight.Some? && x.inFlight.value in x.answered
    case GiveUp => x.inFlight.Some?
    case Deliver(c, now, opens) => c in x.sent && Legal(x.world, Request(k, x, c, now, opens))
    case Other(a) =>
      Legal(x.world, a) && !(a.event.Push? && a.event.token == k.token && Parts(a.event.path) == Parts(k.path))
  }

  function Make(cfg: Config, k: Link, x: System, m: Move): System
    requires m.Send? ==> Flushed(k, x).Some?
    requires m.Acknowledge? || m.GiveUp? ==> x.inFlight.Some?
  {
    match m
    case Grow(more) => x.(local := x.local + more)
    case Send => x.(inFlight := Some(NextChunk(k, x)), sent := x.sent + {NextChunk(k, x)})
    case Acknowledge =>
      x.(file := Acknowledged(x.file, Append, x.inFlight.value.hi), inFlight := None,
         acked := x.acked + [x.inFlight.value])
    case GiveUp => x.(inFlight := None, failed := x.failed + {x.inFlight.value})
    case Deliver(c, now, opens) =>
      var reply := ReplyTo(cfg, x.world, Request(k, x, c, now, opens));
      x.(world := Next(cfg, x.world, Request(k, x, c, now, opens)),
         answered := if reply.FileApplied? then x.answered + {c} else x.answered,
         applied := if reply in {FileApplied(true), ServerError} then x.applied + [c] else x.applied,
         lost := if reply == ServerError then x.lost + {c.seqNo} else x.lost)
    case Other(a) => x.(world := Next(cfg, x.world, a))
  }

  // ---------------------------------------------------------------- slices

  /** The chunks' slices of the local file, one after the other. */
  function Joined(local: Bytes, cs: seq<Chunk>): Bytes {
    if cs == [] then [] else Joined(local, cs[..|cs| - 1]) + Content(local, cs[|cs| - 1])
  }

  /** The chunks that were appended: those whose number is not lost. */
  function Written(cs: seq<Chunk>, lost: set<nat>): seq<Chunk> {
    if cs == [] then []
    else if cs[|cs| - 1].seqNo in lost then Written(cs[..|cs| - 1], lost)
    else Written(cs[..|cs| - 1], lost) + [cs[|cs| - 1]]
  }

  function EndOf(cs: seq<Chunk>): nat {
    if cs == [] then 0 else cs[|cs| - 1].hi
  }

  /** Numbered 1, 2, 3, ..., non-empty, inside the file, disjoint and increasing. */
  ghost predicate Slices(local: Bytes, cs: seq<Chunk>) {
    cs != [] ==>
      && Slices(local, cs[..|cs| - 1])
      && cs[|cs| - 1].seqNo == |cs|
      && EndOf(cs[..|cs| - 1]) <= cs[|cs| - 1].lo < cs[|cs| - 1].hi <= |local|
  }

  lemma OneMoreSlice(local: Bytes, cs: seq<Chunk>, c: Chunk)
    requires Slices(local, cs) && c.seqNo == |cs| + 1 && EndOf(cs) <= c.lo < c.hi <= |local|
    ensures Slices(local, cs + [c]) && EndOf(cs + [c]) == c.hi
    ensures Gapless(cs) && c.lo == EndOf(cs) ==> Gapless(cs + [c])
  {
    assert (cs + [c])[..|cs + [c]| - 1] == cs;
  }

  /** Slices that leave no gap: together they are a prefix of the file. */
  ghost predicate Gapless(cs: seq<Chunk>) {
    cs != [] ==> Gapless(cs[..|cs| - 1]) && cs[|cs| - 1].lo == EndOf(cs[..|cs| - 1])
  }

  lemma {:induction false} SlicesGrow(local: Bytes, more: Bytes, cs: seq<Chunk>)
    requires Slices(local, cs)
    ensures Slices(local + more, cs) && EndOf(cs) <= |local|
  {
    if cs != [] { SlicesGrow(local, more, cs[..|cs| - 1]); }
  }

  lemma {:induction false} JoinedGrows(local: Bytes, more: Bytes, cs: seq<Chunk>)
    requires forall i | 0 <= i < |cs| :: cs[i].hi <= |local|
    ensures Joined(local + more, cs) == Joined(local, cs)
  {
    if cs != [] {
      JoinedGrows(local, more, cs[..|cs| - 1]);
      var c := cs[|cs| - 1];
      if c.lo <= c.hi { assert (local + more)[c.lo..c.hi] == local[c.lo..c.hi]; }
    }
  }

  /** Disjoint, increasing, non-empty slices of the file, ending by `end`. */
  ghost predicate Apart(local: Bytes, cs: seq<Chunk>, end: nat) {
    && (forall i | 0 <= i < |cs| :: cs[i].lo < cs[i].hi <= |local| && cs[i].hi <= end)
    && (forall i, j | 0 <= i < j < |cs| :: cs[i].hi <= cs[j].lo)
  }

  lemma ApartOneMore(local: Bytes, cs: seq<Chunk>, end: nat, c: Chunk)
    requires Apart(local, cs, end) && end <= c.lo < c.hi <= |local|
    ensures Apart(local, cs + [c], c.hi) && Apart(local, cs, c.hi)
  {
  }

  /** What was appended is among the slices taken, so apart from each other too. */
  lemma {:induction false} WrittenAreApart(local: Bytes, cs: seq<Chunk>, lost: set<nat>)
    requires Slices(local, cs)
    ensures Apart(local, Written(cs, lost), EndOf(cs))
  {
    if cs != [] {
      WrittenAreApart(local, cs[..|cs| - 1], lost);
      ApartOneMore(local, Written(cs[..|cs| - 1], lost), EndOf(cs[..|cs| - 1]), cs[|cs| - 1]);
    }
  }

  lemma {:induction false} FutureLossesAreIgnored(local: Bytes, cs: seq<Chunk>, lost: set<nat>, n: nat)
    requires Slices(local, cs) && n > |cs|
    ensures Written(cs, lost + {n}) == Written(cs, lost)
  {
    if cs != [] { FutureLossesAreIgnored(local, cs[..|cs| - 1], lost, n); }
  }

  /** A lost chunk costs bytes. */
  lemma {:induction false} LossesCostBytes(local: Bytes, cs: seq<Chunk>, lost: set<nat>)
    requires Slices(local, cs)
    ensures |Joined(local, Written(cs, lost))| <= |Joined(local, cs)|
    ensures (exists i | 0 <= i < |cs| :: cs[i].seqNo in lost) ==>
              |Joined(local, Written(cs, lost))| < |Joined(local, cs)|
    ensures lost == {} ==> Written(cs, lost) == cs
  {
    hide Joined, Content;
    if cs != [] {
      var front, c := cs[..|cs| - 1], cs[|cs| - 1];
      assert cs == front + [c];
      LossesCostBytes(local, front, lost);
      JoinedLength(local, front, c);
      JoinedLength(local, Written(front, lost), c);
      if c.seqNo !in lost && exists i | 0 <= i < |cs| :: cs[i].seqNo in lost {
        var i :| 0 <= i < |cs| && cs[i].seqNo in lost;
        assert front[i].seqNo in lost;
      }
    }
  }

  lemma JoinedLength(local: Bytes, cs: seq<Chunk>, c: Chunk)
    requires c.lo < c.hi <= |local|
    ensures |Joined(local, cs + [c])| == |Joined(local, cs)| + c.hi - c.lo
  {
    JoinedOneMore(local, cs, c);
  }

  /** Pointwise reading of Slices: numbering, bounds and disjointness. */
  lemma {:induction false} SlicesAreDisjoint(local: Bytes, cs: seq<Chunk>)
    requires Slices(local, cs)
    ensures forall i | 0 <= i < |cs| :: cs[i].seqNo == i + 1 && cs[i].lo < cs[i].hi <= |local|
    ensures forall i, j | 0 <= i < j < |cs| :: cs[i].hi <= cs[j].lo
    ensures forall i | 0 <= i < |cs| :: cs[i].hi <= EndOf(cs)
  {
    if cs != [] {
      var front := cs[..|cs| - 1];
      SlicesAreDisjoint(local, front);
      assert forall i | 0 <= i < |front| :: front[i] == cs[i];
    }
  }

  lemma SliceAfterPrefix(local: Bytes, lo: nat, hi: nat)
    requires lo <= hi <= |local|
    ensures local[..lo] + local[lo..hi] == local[..hi]
  {
  }

  lemma {:induction false} GaplessIsPrefix(local: Bytes, cs: seq<Chunk>)
    requires Slices(local, cs) && Gapless(cs)
    ensures EndOf(cs) <= |local| && Joined(local, cs) == local[..EndOf(cs)]
  {
    if cs != [] {
      var c := cs[|cs| - 1];
      GaplessIsPrefix(local, cs[..|cs| - 1]);
      SliceAfterPrefix(local, c.lo, c.hi);
    }
  }

  /** `got` starts each slice where `want` does and may end it early. */
  ghost predicate Shortens(got: seq<Chunk>, want: seq<Chunk>) {
    && |got| == |want|
    && (got != [] ==>
          var n := |got| - 1;
          && Shortens(got[..n], want[..n])
          && got[n].seqNo == want[n].seqNo && got[n].lo == want[n].lo && got[n].hi <= want[n].hi)
  }

  lemma {:induction false} ShorteningLosesBytes(local: Bytes, got: seq<Chunk>, want: seq<Chunk>)
    requires Slices(local, got) && Slices(local, want) && Shortens(got, want)
    ensures |Joined(local, got)| <= |Joined(local, want)|
    ensures |Joined(local, got)| == |Joined(local, want)| <==> got == want
  {
    if got != [] {
      var n := |got| - 1;
      ShorteningLosesBytes(local, got[..n], want[..n]);
      SameFrontAndLast(got, want);
      assert |Content(local, got[n])| == got[n].hi - got[n].lo;
      assert |Content(local, want[n])| == want[n].hi - want[n].lo;
    }
  }

  lemma SameFrontAndLast(a: seq<Chunk>, b: seq<Chunk>)
    requires |a| == |b| > 0
    ensures a == b <==> a[..|a| - 1] == b[..|b| - 1] && a[|a| - 1] == b[|b| - 1]
  {
    var n := |a| - 1;
    assert a == a[..n] + [a[n]] && b == b[..n] + [b[n]];
  }

  // ---------------------------------------------------------------- the invariant

  ghost predicate ReporterOk(x: System) {
    && 1 <= x.file.nextSeq && x.file.offset == EndOf(x.acked) <= |x.local|
    && |x.acked| == x.file.nextSeq - 1 && Slices(x.local, x.acked) && Gapless(x.acked)
    && (x.inFlight.Some? ==> x.inFlight.value in x.sent && x.inFlight.value.seqNo == x.file.nextSeq)
  }

  /** A chunk under an acknowledged number starts where the acknowledged one does and ends no later. */
  ghost predicate ChunkOk(x: System, c: Chunk) {
    && 1 <= c.seqNo <= x.file.nextSeq && c.lo < c.hi <= |x.local|
    && (if c.seqNo <= |x.acked|
        then c.lo == x.acked[c.seqNo - 1].lo && c.hi <= x.acked[c.seqNo - 1].hi
        else c.lo == x.file.offset && (x.inFlight.Some? ==> c.hi <= x.inFlight.value.hi))
  }

  ghost predicate SentOk(x: System) {
    && (forall c | c in x.sent :: ChunkOk(x, c))
    && (forall c | c in x.sent :: c in x.failed || c in x.acked || x.inFlight == Some(c))
  }

  ghost predicate AppliedOk(x: System) {
    && x.file.nextSeq - 1 <= |x.applied| <= x.file.nextSeq
    && Slices(x.local, x.applied)
    && (forall i | 0 <= i < |x.applied| :: x.applied[i] in x.sent)
    && (forall c | c in x.answered :: c in x.sent && c.seqNo <= |x.applied|)
    && (forall n | n in x.lost :: 1 <= n <= |x.applied|)
  }

  /** The chunk row counts the numbers taken; the stored file is the appended content in order. */
  ghost predicate RemoteIs(k: Link, s: Server, local: Bytes, applied: seq<Chunk>, lost: set<nat>) {
    && Cell(s.chunks, k.job, k.path) == (if applied == [] then None else Some(|applied|))
    && Cell(s.pushed, k.job, Parts(k.path)).GetOr([]) == Joined(local, Written(applied, lost))
  }

  ghost predicate RemoteOk(k: Link, x: System) {
    var s := x.world.server;
    && Inv(x.world) && k.token in x.world.issued && SafePath(k.path)
    && (Holds(s, k.job, k.token) ==>
          s.jobs[k.job].runnerId == Some(k.runner) && RemoteIs(k, s, x.local, x.applied, x.lost))
  }

  /** The reporter's side of the invariant. */
  ghost predicate LocalOk(x: System) {
    ReporterOk(x) && SentOk(x) && AppliedOk(x)
  }

  ghost predicate Good(k: Link, x: System) {
    LocalOk(x) && RemoteOk(k, x)
  }

  // ---------------------------------------------------------------- one move

  lemma OtherStepsSpareTheFile(cfg: Config, w: World, a: Action, k: Link)
    requires Inv(w) && Legal(w, a) && k.token in w.issued
    requires !(a.event.Push? && a.event.token == k.token && Parts(a.event.path) == Parts(k.path))
    ensures var s, t := w.server, Next(cfg, w, a).server;
            Holds(t, k.job, k.token) ==>
              && Holds(s, k.job, k.token)
              && t.jobs[k.job].runnerId == s.jobs[k.job].runnerId
              && Cell(t.chunks, k.job, k.path) == Cell(s.chunks, k.job, k.path)
              && Cell(t.pushed, k.job, Parts(k.path)) == Cell(s.pushed, k.job, Parts(k.path))
  {
    hide ClaimStep, PushStep, UploadStep, SyncStep;
    var s, e := w.server, a.event;
    if k.job in s.jobs {
      RowAfterIsExact(cfg, s, a.now, e, k.job);
      TokenKept(cfg, s, a.now, e, k.job, s.jobs[k.job]);
      if !WritesTo(e, k.job) {
        StoredIsLocal(cfg, s, a.now, e, k.job);
      } else if e.Push? && Holds(s, k.job, k.token) {
        PushSparesOtherPaths(cfg, s, e, k);
      } else if e.Upload? {
        UploadSparesPushedFiles(cfg, s, e);
      }
      if e.Claim? && e.pick == k.job { ClaimEffect(cfg, s, a.now, e); }
    } else {
      NewRowsAreCreated(cfg, s, a.now, e, k.job);
    }
  }

  lemma PushSparesOtherPaths(cfg: Config, s: Server, e: Event, k: Link)
    requires e.Push? && Holds(s, k.job, k.token)
    requires e.job == k.job && e.token == k.token ==> Parts(e.path) != Parts(k.path)
    ensures var t := PushStep(cfg, s, e).server;
            && Cell(t.chunks, k.job, k.path) == Cell(s.chunks, k.job, k.path)
            && Cell(t.pushed, k.job, Parts(k.path)) == Cell(s.pushed, k.job, Parts(k.path))
  {
    hide Parts, SafePath, Tail, Fresher;
  }

  lemma UploadSparesPushedFiles(cfg: Config, s: Server, e: Event)
    requires e.Upload?
    ensures var t := UploadStep(cfg, s, e).server; t.chunks == s.chunks && t.pushed == s.pushed
  {
  }

  lemma LocalSideIgnoresWorld(x: System, w: World)
    requires LocalOk(x)
    ensures LocalOk(x.(world := w))
  {
  }

  lemma OtherKeepsGood(cfg: Config, k: Link, x: System, a: Action)
    requires Good(k, x) && Possible(k, x, Other(a))
    ensures Good(k, Make(cfg, k, x, Other(a)))
  {
    hide Step, Inv, LocalOk;
    StepKeepsInv(cfg, x.world, a);
    OtherStepsSpareTheFile(cfg, x.world, a, k);
    LocalSideIgnoresWorld(x, Next(cfg, x.world, a));
  }

  lemma GrowKeepsGood(cfg: Config, k: Link, x: System, more: Bytes)
    requires Good(k, x)
    ensures Good(k, Make(cfg, k, x, Grow(more)))
  {
    hide Inv, LocalOk;
    GrowKeepsLocal(x, more);
    AppliedAreSlices(x);
    WrittenAreApart(x.local, x.applied, x.lost);
    JoinedGrows(x.local, more, Written(x.applied, x.lost));
  }

  lemma AppliedAreSlices(x: System)
    requires LocalOk(x)
    ensures Slices(x.local, x.applied)
  {
  }

  lemma GrowKeepsLocal(x: System, more: Bytes)
    requires LocalOk(x)
    ensures LocalOk(x.(local := x.local + more))
  {
    SlicesGrow(x.local, more, x.applied);
    SlicesGrow(x.local, more, x.acked);
    var y := x.(local := x.local + more);
    forall c | c in y.sent ensures ChunkOk(y, c) {
      assert ChunkOk(x, c);
    }
  }

  lemma SendKeepsLocal(cfg: Config, k: Link, x: System)
    requires LocalOk(x) && x.inFlight.None? && Flushed(k, x).Some?
    ensures LocalOk(Make(cfg, k, x, Send))
  {
  }

  lemma AcknowledgeKeepsLocal(cfg: Config, k: Link, x: System)
    requires LocalOk(x) && x.inFlight.Some? && x.inFlight.value in x.answered
    ensures LocalOk(Make(cfg, k, x, Acknowledge))
  {
    hide Slices, Gapless;
    var c, n := x.inFlight.value, |x.acked|;
    var y := Make(cfg, k, x, Acknowledge);
    assert ChunkOk(x, c);
    OneMoreSlice(x.local, x.acked, c);
    forall d | d in y.sent ensures ChunkOk(y, d) {
      assert ChunkOk(x, d);
      assert d.seqNo <= n ==> y.acked[d.seqNo - 1] == x.acked[d.seqNo - 1];
    }
  }

  lemma GiveUpKeepsLocal(cfg: Config, k: Link, x: System)
    requires LocalOk(x) && x.inFlight.Some?
    ensures LocalOk(Make(cfg, k, x, GiveUp))
  {
    var y := Make(cfg, k, x, GiveUp);
    forall d | d in y.sent ensures ChunkOk(y, d) {
      assert ChunkOk(x, d);
    }
  }

  lemma ReporterKeepsGood(cfg: Config, k: Link, x: System, m: Move)
    requires Good(k, x) && Possible(k, x, m) && (m.Send? || m.Acknowledge? || m.GiveUp?)
    ensures Good(k, Make(cfg, k, x, m))
  {
    hide Inv, Step, LocalOk;
    if m.Send? { SendKeepsLocal(cfg, k, x); }
    else if m.Acknowledge? { AcknowledgeKeepsLocal(cfg, k, x); }
    else { GiveUpKeepsLocal(cfg, k, x); }
  }

  /** What the server does with a chunk of this file. */
  lemma PushEffect(cfg: Config, s: Server, now: Time, e: Event)
    requires e.Push? && e.mode.Append? && e.chunkSeq.Some? && SafePath(e.path)
    requires Holds(s, e.job, e.token) && s.jobs[e.job].runnerId == Some(e.runner)
    ensures var r := Step(cfg, s, now, e);
            var before, after := Cell(s.pushed, e.job, Parts(e.path)), Cell(r.server.pushed, e.job, Parts(e.path));
            && r.server.jobs == s.jobs
            && (if !Fresher(s, e.job, e.path, e.chunkSeq.value) then r.reply == FileApplied(false) && r.server == s
                else
                  && r.reply == (if e.opens then FileApplied(true) else ServerError)
                  && Cell(r.server.chunks, e.job, e.path) == e.chunkSeq
                  && after == if e.opens then Some(before.GetOr([]) + e.content) else before)
  {
  }

  /** A chunk whose number was taken just now or before; in the first case appended or lost. */
  function Received(x: System, c: Chunk, opens: bool): System {
    var isNew := c.seqNo > |x.applied|;
    x.(answered := if isNew && !opens then x.answered else x.answered + {c},
       applied := if isNew then x.applied + [c] else x.applied,
       lost := if isNew && !opens then x.lost + {c.seqNo} else x.lost)
  }

  lemma ReceivingKeepsLocal(x: System, c: Chunk, opens: bool)
    requires LocalOk(x) && c in x.sent
    ensures LocalOk(Received(x, c, opens))
  {
    hide Slices, Gapless;
    assert ChunkOk(x, c);
    if c.seqNo > |x.applied| {
      AppliedEnd(x, c);
      OneMoreSlice(x.local, x.applied, c);
    }
  }

  /** The chunk that comes next starts at or after the end of the last one taken. */
  lemma AppliedEnd(x: System, c: Chunk)
    requires LocalOk(x) && c in x.sent && c.seqNo > |x.applied|
    ensures c.seqNo == |x.applied| + 1 && EndOf(x.applied) <= c.lo
  {
    assert ChunkOk(x, c);
    if x.applied != [] { assert ChunkOk(x, x.applied[|x.applied| - 1]); }
  }

  lemma PushKeepsRemote(cfg: Config, k: Link, s: Server, now: Time, local: Bytes, applied: seq<Chunk>,
                        lost: set<nat>, c: Chunk, opens: bool)
    requires Holds(s, k.job, k.token) && s.jobs[k.job].runnerId == Some(k.runner) && SafePath(k.path)
    requires RemoteIs(k, s, local, applied, lost) && 1 <= c.seqNo <= |applied| + 1
    requires Slices(local, applied) && forall n | n in lost :: n <= |applied|
    ensures var e := Push(k.runner, k.job, k.token, k.path, Append, Content(local, c), Some(c.seqNo), opens);
            var r := Step(cfg, s, now, e);
            var isNew := c.seqNo > |applied|;
            && r.reply == (if isNew && !opens then ServerError else FileApplied(isNew))
            && r.server.jobs == s.jobs
            && RemoteIs(k, r.server, local, if isNew then applied + [c] else applied,
                        if isNew && !opens then lost + {c.seqNo} else lost)
  {
    hide Step, Joined, Content, Slices, Written;
    PushEffect(cfg, s, now, Push(k.runner, k.job, k.token, k.path, Append, Content(local, c), Some(c.seqNo), opens));
    JoinedOneMore(local, Written(applied, lost), c);
    WrittenOneMore(local, applied, lost, c);
  }

  lemma WrittenOneMore(local: Bytes, applied: seq<Chunk>, lost: set<nat>, c: Chunk)
    requires Slices(local, applied) && forall n | n in lost :: n <= |applied|
    ensures c.seqNo > |applied| ==>
              && Written(applied + [c], lost) == Written(applied, lost) + [c]
              && Written(applied + [c], lost + {c.seqNo}) == Written(applied, lost)
  {
    assert (applied + [c])[..|applied + [c]| - 1] == applied;
    if c.seqNo > |applied| { FutureLossesAreIgnored(local, applied, lost, c.seqNo); }
  }

  /** Under the lease, a delivery is exactly a reception. */
  lemma DeliverReceives(cfg: Config, k: Link, x: System, c: Chunk, now: Time, opens: bool)
    requires Good(k, x) && c in x.sent && Holds(x.world.server, k.job, k.token)
    ensures var y := Make(cfg, k, x, Deliver(c, now, opens));
            && y == Received(x, c, opens).(world := y.world)
            && y.world == Next(cfg, x.world, Request(k, x, c, now, opens))
            && y.world.server.jobs == x.world.server.jobs
            && RemoteIs(k, y.world.server, y.local, y.applied, y.lost)
  {
    hide Step, Inv, RemoteIs, ReporterOk, SentOk;
    SentAreNumbered(x, c);
    PushKeepsRemote(cfg, k, x.world.server, now, x.local, x.applied, x.lost, c, opens);
  }

  lemma DeliverKeepsGood(cfg: Config, k: Link, x: System, c: Chunk, now: Time, opens: bool)
    requires Good(k, x) && Possible(k, x, Deliver(c, now, opens))
    ensures Good(k, Make(cfg, k, x, Deliver(c, now, opens)))
  {
    hide Step, Inv, LocalOk, Legal, RemoteIs, Received;
    var a := Request(k, x, c, now, opens);
    StepKeepsInv(cfg, x.world, a);
    if Holds(x.world.server, k.job, k.token) {
      DeliverReceives(cfg, k, x, c, now, opens);
      ReceivingKeepsLocal(x, c, opens);
      LocalSideIgnoresWorld(Received(x, c, opens), Next(cfg, x.world, a));
    } else {
      F.UnheldIsRejected(cfg, x.world.server, now, a.event);
      LocalSideIgnoresWorld(x, Next(cfg, x.world, a));
    }
  }

  lemma JoinedOneMore(local: Bytes, cs: seq<Chunk>, c: Chunk)
    ensures Joined(local, cs + [c]) == Joined(local, cs) + Content(local, c)
  {
    assert (cs + [c])[..|cs + [c]| - 1] == cs;
  }

  lemma SentAreNumbered(x: System, c: Chunk)
    requires LocalOk(x) && c in x.sent
    ensures 1 <= c.seqNo <= |x.applied| + 1
  {
    assert ChunkOk(x, c);
  }

  lemma MoveKeepsGood(cfg: Config, k: Link, x: System, m: Move)
    requires Good(k, x) && Possible(k, x, m)
    ensures Good(k, Make(cfg, k, x, m))
  {
    match m
    case Grow(more) => GrowKeepsGood(cfg, k, x, more);
    case Deliver(c, now, opens) => DeliverKeepsGood(cfg, k, x, c, now, opens);
    case Other(a) => OtherKeepsGood(cfg, k, x, a);
    case _ => ReporterKeepsGood(cfg, k, x, m);
  }

  // ---------------------------------------------------------------- all runs

  /** The moment the claim was answered: cleared storage, a reporter that has sent nothing. */
  ghost predicate JustClaimed(k: Link, x: System) {
    && Inv(x.world) && k.token in x.world.issued && SafePath(k.path)
    && Holds(x.world.server, k.job, k.token)
    && x.world.server.jobs[k.job].runnerId == Some(k.runner)
    && Stored(x.world.server, k.job) == NOTHING_STORED
    && x.file == UNSENT && x.inFlight.None? && x.sent == {} && x.answered == {} && x.failed == {}
    && x.applied == [] && x.acked == [] && x.lost == {}
  }

  ghost function After(cfg: Config, k: Link, x: System, ms: seq<Move>): System {
    if ms == [] then x
    else
      var before, m := After(cfg, k, x, ms[..|ms| - 1]), ms[|ms| - 1];
      if Possible(k, before, m) then Make(cfg, k, before, m) else before
  }

  ghost predicate Runs(cfg: Config, k: Link, x: System, ms: seq<Move>) {
    ms != [] ==>
      && Runs(cfg, k, x, ms[..|ms| - 1])
      && Possible(k, After(cfg, k, x, ms[..|ms| - 1]), ms[|ms| - 1])
  }

  lemma {:induction false} EveryRunIsGood(cfg: Config, k: Link, x: System, ms: seq<Move>)
    requires JustClaimed(k, x) && Runs(cfg, k, x, ms)
    ensures Good(k, After(cfg, k, x, ms))
  {
    hide Make, Possible, LocalOk, RemoteOk;
    if ms == [] {
      JustClaimedIsGood(k, x);
    } else {
      EveryRunIsGood(cfg, k, x, ms[..|ms| - 1]);
      MoveKeepsGood(cfg, k, After(cfg, k, x, ms[..|ms| - 1]), ms[|ms| - 1]);
    }
  }

  lemma JustClaimedIsGood(k: Link, x: System)
    requires JustClaimed(k, x)
    ensures Good(k, x)
  {
  }

  function RemoteFile(k: Link, x: System): Bytes {
    Cell(x.world.server.pushed, k.job, Parts(k.path)).GetOr([])
  }

  function RemoteSeq(k: Link, x: System): int {
    Cell(x.world.server.chunks, k.job, k.path).GetOr(0)
  }

  /**
   Main result: at every point of every run on which the lease still stands, the
   stored file is a concatenation of disjoint, increasing slices of the local
   file, each byte at most once and in order, and the server's chunk number is
   the reporter's next one or the one before it.
   */
  lemma AtMostOnceInOrder(cfg: Config, k: Link, x: System, ms: seq<Move>)
    requires JustClaimed(k, x) && Runs(cfg, k, x, ms)
    requires Holds(After(cfg, k, x, ms).world.server, k.job, k.token)
    ensures var y := After(cfg, k, x, ms);
            var ws := Written(y.applied, y.lost);
            && RemoteFile(k, y) == Joined(y.local, ws)
            && (forall i | 0 <= i < |ws| :: ws[i].lo < ws[i].hi <= |y.local|)
            && (forall i, j | 0 <= i < j < |ws| :: ws[i].hi <= ws[j].lo)
            && RemoteSeq(k, y) == |y.applied|
            && y.file.nextSeq - 1 <= RemoteSeq(k, y) <= y.file.nextSeq
  {
    hide Make, Possible, Slices, Joined, Written;
    EveryRunIsGood(cfg, k, x, ms);
    var y := After(cfg, k, x, ms);
    WrittenAreApart(y.local, y.applied, y.lost);
  }

  lemma {:induction false} PointwiseShortens(got: seq<Chunk>, want: seq<Chunk>)
    requires |got| == |want|
    requires forall i | 0 <= i < |got| ::
               got[i].seqNo == want[i].seqNo && got[i].lo == want[i].lo && got[i].hi <= want[i].hi
    ensures Shortens(got, want)
  {
    if got != [] { PointwiseShortens(got[..|got| - 1], want[..|want| - 1]); }
  }

  /**
   Main result: with no push in flight and the counters in step, the stored file
   is the local file up to the sent offset exactly when no number was taken for a
   file that would not open, and every applied chunk some push of which was
   reported as failed was acknowledged after all.
   */
  lemma ExactPrefixIff(cfg: Config, k: Link, x: System, ms: seq<Move>)
    requires JustClaimed(k, x) && Runs(cfg, k, x, ms)
    requires var y := After(cfg, k, x, ms);
             Holds(y.world.server, k.job, k.token) && y.inFlight.None? && RemoteSeq(k, y) == y.file.nextSeq - 1
    ensures var y := After(cfg, k, x, ms);
            && |RemoteFile(k, y)| <= y.file.offset <= |y.local|
            && (RemoteFile(k, y) == y.local[..y.file.offset] <==>
                y.lost == {} && forall c | c in y.applied && c in y.failed :: c in y.acked)
  {
    hide Make, Possible;
    EveryRunIsGood(cfg, k, x, ms);
    QuiescentPrefix(After(cfg, k, x, ms));
    AppliedIsAckedIff(After(cfg, k, x, ms));
  }

  lemma QuiescentPrefix(y: System)
    requires LocalOk(y) && |y.applied| == |y.acked|
    ensures |Joined(y.local, Written(y.applied, y.lost))| <= y.file.offset <= |y.local|
    ensures Joined(y.local, Written(y.applied, y.lost)) == y.local[..y.file.offset] <==>
            y.lost == {} && y.applied == y.acked
  {
    hide Joined, Content, Slices, Gapless, Shortens, Written, ChunkOk, SentOk;
    AckedPrefix(y);
    LossesCostBytes(y.local, y.applied, y.lost);
    if y.lost != {} {
      var n :| n in y.lost;
      SlicesAreDisjoint(y.local, y.applied);
      assert y.applied[n - 1].seqNo in y.lost;
    }
  }

  /** Were nothing lost, the file would be the prefix iff what was applied is what was acknowledged. */
  lemma AckedPrefix(y: System)
    requires LocalOk(y) && |y.applied| == |y.acked|
    ensures |Joined(y.local, y.applied)| <= y.file.offset <= |y.local|
    ensures Joined(y.local, y.applied) == y.local[..y.file.offset] <==> y.applied == y.acked
  {
    hide Joined, Content, Slices, Gapless, Shortens, Written, SentOk, ChunkOk;
    AppliedShortensAcked(y);
    ShorteningLosesBytes(y.local, y.applied, y.acked);
    GaplessIsPrefix(y.local, y.acked);
  }

  lemma AppliedShortensAcked(y: System)
    requires LocalOk(y) && |y.applied| == |y.acked|
    ensures Shortens(y.applied, y.acked)
  {
    hide Slices, Gapless, Shortens;
    SlicesAreDisjoint(y.local, y.applied);
    SlicesAreDisjoint(y.local, y.acked);
    assert forall i | 0 <= i < |y.applied| :: ChunkOk(y, y.applied[i]);
    PointwiseShortens(y.applied, y.acked);
  }

  /**
   Main result: if no push reported as failed was ever applied, then between
   pushes the stored file is exactly the local file up to the sent offset, unless
   a number was taken for a file that would not open.
   */
  lemma NothingFailedWasApplied(cfg: Config, k: Link, x: System, ms: seq<Move>)
    requires JustClaimed(k, x) && Runs(cfg, k, x, ms)
    requires var y := After(cfg, k, x, ms);
             && Holds(y.world.server, k.job, k.token) && y.inFlight.None?
             && (forall c | c in y.applied :: c !in y.failed)
    ensures var y := After(cfg, k, x, ms);
            y.file.offset <= |y.local| && (RemoteFile(k, y) == y.local[..y.file.offset] <==> y.lost == {})
  {
    hide Make, Possible;
    EveryRunIsGood(cfg, k, x, ms);
    var y := After(cfg, k, x, ms);
    FailuresAckedAreAcked(y);
    QuiescentPrefix(y);
  }

  lemma AckedUnderItsNumber(local: Bytes, acked: seq<Chunk>, c: Chunk)
    requires Slices(local, acked) && c in acked
    ensures 1 <= c.seqNo <= |acked| && acked[c.seqNo - 1] == c
  {
    SlicesAreDisjoint(local, acked);
  }

  lemma FailuresAckedAreAcked(y: System)
    requires LocalOk(y) && y.inFlight.None? && forall c | c in y.applied && c in y.failed :: c in y.acked
    ensures y.applied == y.acked
  {
    hide Slices, Gapless, ChunkOk;
    SlicesAreDisjoint(y.local, y.applied);
    forall i | 0 <= i < |y.applied|
      ensures i < |y.acked| && y.applied[i] == y.acked[i]
    {
      var c := y.applied[i];
      assert c in y.applied && c in y.sent;
      AckedUnderItsNumber(y.local, y.acked, c);
    }
    assert |y.applied| == |y.acked|;
  }

  lemma AppliedIsAckedIff(y: System)
    requires LocalOk(y) && y.inFlight.None?
    ensures y.applied == y.acked <==> forall c | c in y.applied && c in y.failed :: c in y.acked
  {
    if forall c | c in y.applied && c in y.failed :: c in y.acked { FailuresAckedAreAcked(y); }
  }

  lemma OneMore(cfg: Config, k: Link, x: System, ms: seq<Move>, m: Move)
    requires Runs(cfg, k, x, ms) && Possible(k, After(cfg, k, x, ms), m)
    ensures Runs(cfg, k, x, ms + [m])
    ensures After(cfg, k, x, ms + [m]) == Make(cfg, k, After(cfg, k, x, ms), m)
  {
    assert (ms + [m])[..|ms + [m]| - 1] == ms;
  }

  lemma DeliverOnly(cfg: Config, k: Link, x: System, c: Chunk, now: Time, opens: bool)
    requires Good(k, x) && c in x.sent && x.world.clock <= now
    requires Holds(x.world.server, k.job, k.token)
    ensures Possible(k, x, Deliver(c, now, opens))
    ensures var y := Make(cfg, k, x, Deliver(c, now, opens));
            && y == Received(x, c, opens).(world := y.world)
            && Holds(y.world.server, k.job, k.token) && y.world.clock == now
  {
    hide Step, Inv, LocalOk, Received;
    DeliverReceives(cfg, k, x, c, now, opens);
  }

  /**
   Without that hypothesis bytes can be lost for good: a push that is applied but
   reported as failed, then growth, then the resend under the same number, which
   the server drops while the reporter moves its offset past the new bytes.
   */
  lemma LostAnswerWithGrowthLosesBytes(cfg: Config, k: Link, x: System, a: Bytes, b: Bytes, now: Time)
    requires JustClaimed(k, x) && x.local == [] && a != [] && b != [] && x.world.clock <= now
    ensures var ms := [Grow(a), Send, Deliver(Chunk(1, 0, |a|), now, true), GiveUp,
                       Grow(b), Send, Deliver(Chunk(1, 0, |a + b|), now, true), Acknowledge];
            var y := After(cfg, k, x, ms);
            && Runs(cfg, k, x, ms)
            && RemoteFile(k, y) == a && y.local == a + b && y.file.offset == |y.local|
            && y.inFlight.None? && RemoteSeq(k, y) == y.file.nextSeq - 1
  {
    hide Step, Inv, LocalOk, Good, RemoteOk;
    var c2 := Chunk(1, 0, |a + b|);
    FirstSendIsLost(cfg, k, x, a, now);
    var m3 := [Grow(a), Send, Deliver(Chunk(1, 0, |a|), now, true), GiveUp];
    var x3 := SendsAll(cfg, k, x, m3, b);
    var m4 := m3 + [Grow(b), Send];
    DeliverOnly(cfg, k, x3, c2, now, true);
    OneMore(cfg, k, x, m4, Deliver(c2, now, true));
    OneMore(cfg, k, x, m4 + [Deliver(c2, now, true)], Acknowledge);
    var m6 := m4 + [Deliver(c2, now, true)] + [Acknowledge];
    assert m6 == [Grow(a), Send, Deliver(Chunk(1, 0, |a|), now, true), GiveUp,
                  Grow(b), Send, Deliver(c2, now, true), Acknowledge];
    AtMostOnceInOrder(cfg, k, x, m6);
    FirstSliceOnly(a, b);
  }

  lemma FirstSliceOnly(a: Bytes, b: Bytes)
    ensures Joined(a + b, Written([Chunk(1, 0, |a|)], {})) == a
  {
    var cs := [Chunk(1, 0, |a|)];
    assert cs[..0] == [] && Written([], {}) + cs == cs && (a + b)[0..|a|] == a;
  }

  lemma FirstSendIsLost(cfg: Config, k: Link, x: System, a: Bytes, now: Time)
    requires JustClaimed(k, x) && x.local == [] && a != [] && x.world.clock <= now
    ensures var c1 := Chunk(1, 0, |a|);
            var ms := [Grow(a), Send, Deliver(c1, now, true), GiveUp];
            var z := After(cfg, k, x, ms);
            && Runs(cfg, k, x, ms)
            && z.local == a && z.file == UNSENT && z.inFlight.None?
            && z.applied == [c1] && z.acked == [] && z.lost == {}
            && Holds(z.world.server, k.job, k.token) && z.world.clock == now
  {
    hide Step, Inv, LocalOk, Good, RemoteOk;
    var c1 := Chunk(1, 0, |a|);
    var m1 := [Grow(a), Send];
    var x1 := SendsAll(cfg, k, x, [], a);
    assert [] + m1 == m1 && [] + a == a;
    DeliverOnly(cfg, k, x1, c1, now, true);
    OneMore(cfg, k, x, m1, Deliver(c1, now, true));
    OneMore(cfg, k, x, m1 + [Deliver(c1, now, true)], GiveUp);
    assert m1 + [Deliver(c1, now, true)] + [GiveUp] == [Grow(a), Send, Deliver(c1, now, true), GiveUp];
  }

  /**
   Nor is a lost answer needed: the chunk number is taken before the file is opened,
   so when opening fails the client's resend is dropped and then acknowledged.
   */
  lemma FailedOpenLosesBytes(cfg: Config, k: Link, x: System, a: Bytes, now: Time)
    requires JustClaimed(k, x) && x.local == [] && a != [] && x.world.clock <= now
    ensures var c := Chunk(1, 0, |a|);
            var ms := [Grow(a), Send, Deliver(c, now, false), Deliver(c, now, true), Acknowledge];
            var y := After(cfg, k, x, ms);
            && Runs(cfg, k, x, ms)
            && y.failed == {} && y.inFlight.None? && y.local == a && y.file.offset == |a|
            && RemoteFile(k, y) == []
  {
    hide Step, Inv, LocalOk, Good, RemoteOk;
    var c := Chunk(1, 0, |a|);
    FirstSendTakesNumberOnly(cfg, k, x, a, now);
    var m2 := [Grow(a), Send, Deliver(c, now, false)];
    EveryRunIsGood(cfg, k, x, m2);
    DeliverOnly(cfg, k, After(cfg, k, x, m2), c, now, true);
    OneMore(cfg, k, x, m2, Deliver(c, now, true));
    var m3 := m2 + [Deliver(c, now, true)];
    OneMore(cfg, k, x, m3, Acknowledge);
    var m4 := m3 + [Acknowledge];
    assert m4 == [Grow(a), Send, Deliver(c, now, false), Deliver(c, now, true), Acknowledge];
    AtMostOnceInOrder(cfg, k, x, m4);
    NothingWritten(a, c);
  }

  lemma FirstSendTakesNumberOnly(cfg: Config, k: Link, x: System, a: Bytes, now: Time)
    requires JustClaimed(k, x) && x.local == [] && a != [] && x.world.clock <= now
    ensures var c := Chunk(1, 0, |a|);
            var ms := [Grow(a), Send, Deliver(c, now, false)];
            var z := After(cfg, k, x, ms);
            && Runs(cfg, k, x, ms)
            && z.local == a && z.inFlight == Some(c) && c in z.sent && z.failed == {}
            && z.applied == [c] && z.acked == [] && z.lost == {1}
            && Holds(z.world.server, k.job, k.token) && z.world.clock == now
  {
    hide Step, Inv, LocalOk, Good, RemoteOk;
    var c := Chunk(1, 0, |a|);
    var m1 := [Grow(a), Send];
    var x1 := SendsAll(cfg, k, x, [], a);
    assert [] + m1 == m1 && [] + a == a;
    DeliverOnly(cfg, k, x1, c, now, false);
    OneMore(cfg, k, x, m1, Deliver(c, now, false));
    assert m1 + [Deliver(c, now, false)] == [Grow(a), Send, Deliver(c, now, false)];
  }

  lemma NothingWritten(local: Bytes, c: Chunk)
    ensures Joined(local, Written([c], {c.seqNo})) == []
  {
    assert [c][..0] == [];
  }

  /** From an unacknowledged start, growth and a flush put the whole file in flight as chunk 1. */
  lemma SendsAll(cfg: Config, k: Link, x: System, ms: seq<Move>, more: Bytes) returns (y: System)
    requires JustClaimed(k, x) && Runs(cfg, k, x, ms) && more != []
    requires var z := After(cfg, k, x, ms); z.file == UNSENT && z.inFlight.None?
    ensures var z := After(cfg, k, x, ms);
            var c := Chunk(1, 0, |z.local + more|);
            && y == After(cfg, k, x, ms + [Grow(more), Send])
            && Runs(cfg, k, x, ms + [Grow(more), Send]) && Good(k, y)
            && y == z.(local := z.local + more, inFlight := Some(c), sent := z.sent + {c})
  {
    hide Step, Inv, LocalOk, Good;
    OneMore(cfg, k, x, ms, Grow(more));
    OneMore(cfg, k, x, ms + [Grow(more)], Send);
    assert ms + [Grow(more)] + [Send] == ms + [Grow(more), Send];
    y := After(cfg, k, x, ms + [Grow(more), Send]);
    EveryRunIsGood(cfg, k, x, ms + [Grow(more), Send]);
  }

  /** Every answered claim is such a starting point, for every file of the job. */
  lemma ClaimStartsTheSystem(cfg: Config, w: World, a: Action, path: string, local: Bytes)
    requires Inv(w) && Legal(w, a) && a.event.Claim? && a.event.cut.Whole? && ReplyTo(cfg, w, a).Claimed?
    requires SafePath(path)
    ensures JustClaimed(Link(a.event.pick, a.event.runner, a.event.token, path),
                        System(Next(cfg, w, a), local, UNSENT, None, {}, {}, {}, [], [], {}))
  {
    StepKeepsInv(cfg, w, a);
  }

  /** A send that is settled is one pass of the reporter's flush over this file. */
  lemma SettledSendIsOneFlush(cfg: Config, k: Link, x: System)
    requires LocalOk(x) && x.inFlight.None? && Flushed(k, x).Some?
    ensures var sent := Make(cfg, k, x, Send);
            var seen := Some(Seen(|x.local|, x.local));
            && Content(x.local, NextChunk(k, x)) == Flushed(k, x).value.content
            && Make(cfg, k, sent, Acknowledge).file == FlushOne(x.file, k.path, Append, seen, true)
            && Make(cfg, k, sent, GiveUp).file == FlushOne(x.file, k.path, Append, seen, false)
  {
  }
}
