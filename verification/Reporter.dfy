/** The runner's file reporter, one flush pass at a time, and the client's bounded resend. */
module Reporter {
  import opened Options
  import opened ControlPlane

  /** What the reporter remembers of one file: `_sent_offsets` and `_next_chunk_seq`. */
  datatype FileState = FileState(offset: nat, nextSeq: nat)

  const UNSENT := FileState(0, 1)

  /** A file as one flush sees it: the size stat reported, the bytes read afterwards. */
  datatype Seen = Seen(size: nat, data: Bytes)

  datatype Sent = Sent(path: string, mode: Mode, chunkSeq: Option<nat>, content: Bytes)

  /** The state in which the payload is built: truncation starts over at sequence number 1. */
  function Prepared(f: FileState, mode: Mode, size: nat): FileState {
    if mode.Append? && size < f.offset then f.(nextSeq := 1) else f
  }

  /** Where the read starts; full mode always re-reads the whole file. */
  function ReadFrom(f: FileState, mode: Mode, size: nat): nat {
    if mode.Full? || size < f.offset then 0 else f.offset
  }

  function Payload(f: FileState, path: string, mode: Mode, seen: Seen): Option<Sent> {
    var lo := ReadFrom(f, mode, seen.size);
    if mode.Append? && seen.size == f.offset then None
    else if lo >= |seen.data| then None
    else Some(Sent(path, mode, if mode.Append? then Some(Prepared(f, mode, seen.size).nextSeq) else None,
                   seen.data[lo..]))
  }

  function Acknowledged(f: FileState, mode: Mode, size: nat): FileState {
    FileState(size, if mode.Append? then f.nextSeq + 1 else f.nextSeq)
  }

  /** One file of one flush: `seen` is None when the file is missing or unreadable. */
  function FlushOne(f: FileState, path: string, mode: Mode, seen: Option<Seen>, accepted: bool): FileState {
    if seen.None? then f
    else if mode.Append? && seen.value.size == f.offset then f
    else
      var g := Prepared(f, mode, seen.value.size);
      if Payload(f, path, mode, seen.value).Some? && accepted then Acknowledged(g, mode, seen.value.size) else g
  }

  /** All that can happen to one file in one flush, and what is sent of it. */
  lemma FlushCases(f: FileState, path: string, mode: Mode, seen: Seen, accepted: bool)
    requires seen.size <= |seen.data|
    ensures var sent, after := Payload(f, path, mode, seen), FlushOne(f, path, mode, Some(seen), accepted);
            && FlushOne(f, path, mode, None, accepted) == f
            && (mode == Append && seen.size == f.offset ==> sent.None? && after == f)
            && (mode == Append && f.offset < seen.size ==>
                  && sent == Some(Sent(path, Append, Some(f.nextSeq), seen.data[f.offset..]))
                  && after == if accepted then FileState(seen.size, f.nextSeq + 1) else f)
            && (mode == Append && seen.size < f.offset && seen.data != [] ==>
                  && sent == Some(Sent(path, Append, Some(1), seen.data))
                  && after == if accepted then FileState(seen.size, 2) else f.(nextSeq := 1))
            && (mode == Append && seen.size < f.offset && seen.data == [] ==> sent.None? && after == f.(nextSeq := 1))
            && (mode == Full && seen.data != [] ==>
                  && sent == Some(Sent(path, Full, None, seen.data))
                  && after == if accepted then f.(offset := seen.size) else f)
            && (mode == Full && seen.data == [] ==> sent.None? && after == f)
  {
    assert seen.data[0..] == seen.data;
  }

  /** When stat and read see the same bytes, an accepted append ends exactly at the new offset. */
  lemma AcceptedAppendEndsAtOffset(f: FileState, path: string, seen: Seen)
    requires f.offset <= seen.size <= |seen.data| && f.offset < |seen.data| && f.offset != seen.size
    ensures var p := Payload(f, path, Append, seen);
            p.Some? && (f.offset + |p.value.content| == FlushOne(f, path, Append, Some(seen), true).offset
                        <==> seen.size == |seen.data|)
  {
  }

  /**
   When the file grows between stat and read, the grown part is sent twice: a
   file "a" that becomes "ab" in between is delivered as "ab" and then "b".
   */
  lemma GrowthBetweenStatAndReadDuplicates(a: Bytes, b: Bytes, path: string)
    requires a != [] && b != []
    ensures var first := Seen(|a|, a + b);
            var second := Seen(|a + b|, a + b);
            var p1 := Payload(UNSENT, path, Append, first);
            var f := FlushOne(UNSENT, path, Append, Some(first), true);
            var p2 := Payload(f, path, Append, second);
            p1.Some? && p2.Some? && p1.value.content + p2.value.content == (a + b) + b
  {
    assert (a + b)[0..] == a + b && (a + b)[|a|..] == b;
  }

  // ---------------------------------------------------------------- the running code

  class TaskReporter {
    const fileSpecs: seq<(string, Mode)>
    var sentOffsets: map<string, nat>
    var nextChunkSeq: map<string, nat>

    /** The keys of a dictionary are distinct. */
    ghost predicate Valid() {
      forall i, k | 0 <= i < k < |fileSpecs| :: fileSpecs[i].0 != fileSpecs[k].0
    }

    constructor (specs: seq<(string, Mode)>)
      requires forall i, k | 0 <= i < k < |specs| :: specs[i].0 != specs[k].0
      ensures Valid() && fileSpecs == specs
      ensures forall path :: StateOf(path) == UNSENT
    {
      fileSpecs, sentOffsets, nextChunkSeq := specs, map[], map[];
    }

    function StateOf(path: string): FileState
      reads this
    {
      FileState(Lookup(sentOffsets, path).GetOr(0), Lookup(nextChunkSeq, path).GetOr(1))
    }

    /**
     One pass over all files.  `seen` is the file system during the pass,
     `accepted` the paths whose push returned without an exception.
     */
    method FlushFiles(seen: map<string, Seen>, accepted: set<string>) returns (sent: seq<Sent>)
      requires Valid()
      modifies this
      ensures Valid()
      ensures forall i | 0 <= i < |fileSpecs| ::
                var (path, mode) := fileSpecs[i];
                StateOf(path) == FlushOne(old(StateOf(path)), path, mode, Lookup(seen, path), path in accepted)
      ensures forall path | path !in Paths(fileSpecs) :: StateOf(path) == old(StateOf(path))
      ensures forall p | p in sent ::
                p.path in seen && Payload(old(StateOf(p.path)), p.path, p.mode, seen[p.path]) == Some(p)
      ensures forall i | 0 <= i < |fileSpecs| :: forall p ::
                var (path, mode) := fileSpecs[i];
                path in seen && Payload(old(StateOf(path)), path, mode, seen[path]) == Some(p) ==> p in sent
    {
      sent := [];
      var i := 0;
      while i < |fileSpecs|
        invariant 0 <= i <= |fileSpecs|
        invariant forall k | 0 <= k < i ::
                    var (path, mode) := fileSpecs[k];
                    StateOf(path) == FlushOne(old(StateOf(path)), path, mode, Lookup(seen, path), path in accepted)
        invariant forall path | path !in Paths(fileSpecs[..i]) :: StateOf(path) == old(StateOf(path))
        invariant forall p | p in sent ::
                    p.path in seen && Payload(old(StateOf(p.path)), p.path, p.mode, seen[p.path]) == Some(p)
        invariant forall k | 0 <= k < i :: forall p ::
                    var (path, mode) := fileSpecs[k];
                    path in seen && Payload(old(StateOf(path)), path, mode, seen[path]) == Some(p) ==> p in sent
      {
        var (path, mode) := fileSpecs[i];
        assert path !in Paths(fileSpecs[..i]);
        assert Paths(fileSpecs[..i + 1]) == Paths(fileSpecs[..i]) + {path};
        if path in seen {
          var pushed := FlushFile(path, mode, seen[path], path in accepted);
          if pushed.Some? { sent := sent + [pushed.value]; }
        }
        i := i + 1;
      }
      assert fileSpecs[..i] == fileSpecs;
    }

    method FlushFile(path: string, mode: Mode, seen: Seen, accepted: bool) returns (pushed: Option<Sent>)
      modifies this
      ensures StateOf(path) == FlushOne(old(StateOf(path)), path, mode, Some(seen), accepted)
      ensures forall other | other != path :: StateOf(other) == old(StateOf(other))
      ensures pushed == Payload(old(StateOf(path)), path, mode, seen)
    {
      pushed := None;
      var sentOffset := Lookup(sentOffsets, path).GetOr(0);
      if mode.Append? {
        if seen.size == sentOffset { return; }
        if seen.size < sentOffset {
          sentOffset := 0;
          nextChunkSeq := nextChunkSeq[path := 1];
        }
      } else {
        sentOffset := 0;
      }
      var chunkSeq := Lookup(nextChunkSeq, path).GetOr(1);
      if sentOffset >= |seen.data| { return; }
      pushed := Some(Sent(path, mode, if mode.Append? then Some(chunkSeq) else None, seen.data[sentOffset..]));
      if accepted {
        if mode.Append? { nextChunkSeq := nextChunkSeq[path := chunkSeq + 1]; }
        sentOffsets := sentOffsets[path := seen.size];
      }
    }
  }

  function Paths(specs: seq<(string, Mode)>): set<string> {
    set i | 0 <= i < |specs| :: specs[i].0
  }

  // ---------------------------------------------------------------- bounded resend

  datatype Attempt = Answer(code: int) | NetworkError

  datatype Fate = Success(code: int) | HttpError(code: int) | TransportError | Exhausted

  function FateOf(a: Attempt): Fate {
    match a
    case NetworkError => TransportError
    case Answer(code) => if 200 <= code <= 299 then Success(code) else HttpError(code)
  }

  /** `attempts[i]` is what the i-th request would meet. */
  method RequestWithRetry(attempts: seq<Attempt>, maxAttempts: nat) returns (fate: Fate, used: nat)
    requires maxAttempts <= |attempts|
    ensures used <= maxAttempts && (maxAttempts == 0 <==> fate.Exhausted?)
    ensures maxAttempts > 0 ==>
              && used >= 1
              && (forall i | 0 <= i < used - 1 :: attempts[i].NetworkError? || 500 <= attempts[i].code <= 599)
              && (used < maxAttempts ==> attempts[used - 1].Answer? && !(500 <= attempts[used - 1].code <= 599))
              && fate == match attempts[used - 1]
                         case NetworkError => TransportError
                         case Answer(code) => if 200 <= code <= 299 then Success(code) else HttpError(code)
  {
    used := 0;
    while used < maxAttempts
      invariant used <= maxAttempts
      invariant forall i | 0 <= i < used :: attempts[i].NetworkError? || 500 <= attempts[i].code <= 599
      invariant maxAttempts > 0 ==> used < maxAttempts
    {
      var attempt := attempts[used];
      used := used + 1;
      match attempt {
        case Answer(code) =>
          if 500 <= code <= 599 && used < maxAttempts { continue; }
          return FateOf(attempt), used;
        case NetworkError =>
          if used < maxAttempts { continue; }
          return TransportError, used;
      }
    }
    fate := Exhausted;
  }
}
