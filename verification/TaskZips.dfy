/**
 The content-addressed task zip store.  A handler is a list of durable
 sub-steps; a crash may come between any two of them, or in the middle of
 writing the temporary file, and leaves disk and table as they are.
 */
module TaskZips {
  import opened ControlPlane

  /** A collision-free digest. */
  datatype Sha = Sha(of: Bytes)

  datatype FileName = Zip(sha: Sha) | Tmp(sha: Sha)

  datatype Store = Store(disk: map<FileName, Bytes>, rows: map<TaskId, Sha>, nextId: TaskId)

  datatype Op =
    | WriteTmp(zip: Bytes)
    | Publish(sha: Sha)
    | Insert(sha: Sha)
    | SetSha(id: TaskId, sha: Sha)
    | DropRow(id: TaskId)
    | Unlink(sha: Sha)

  /** Some other definition has this fingerprint: the UNIQUE column's concern. */
  predicate TakenByOther(rows: map<TaskId, Sha>, id: TaskId, sha: Sha) {
    exists k | k in rows :: k != id && rows[k] == sha
  }

  function Exec(s: Store, op: Op): Store {
    match op
    case WriteTmp(zip) => s.(disk := s.disk[Tmp(Sha(zip)) := zip])
    case Publish(sha) =>
      if Tmp(sha) in s.disk then s.(disk := s.disk[Zip(sha) := s.disk[Tmp(sha)]] - {Tmp(sha)}) else s
    case Insert(sha) => s.(rows := s.rows[s.nextId := sha], nextId := s.nextId + 1)
    case SetSha(id, sha) => s.(rows := s.rows[id := sha])
    case DropRow(id) => s.(rows := s.rows - {id})
    case Unlink(sha) => s.(disk := s.disk - {Zip(sha)})
  }

  function ExecAll(s: Store, ops: seq<Op>): Store
    decreases |ops|
  {
    if ops == [] then s else ExecAll(Exec(s, ops[0]), ops[1..])
  }

  /** A crash inside write_bytes leaves the first `n` bytes. */
  function Torn(s: Store, zip: Bytes, n: nat): Store {
    s.(disk := s.disk[Tmp(Sha(zip)) := if n <= |zip| then zip[..n] else zip])
  }

  // ---------------------------------------------------------------- handlers

  datatype Request =
    | UploadZip(zip: Bytes, valid: bool)
    | UpdateZip(id: TaskId, zip: Bytes, valid: bool)
    | RemoveTask(id: TaskId)

  function IngestOps(s: Store, zip: Bytes): seq<Op> {
    if Zip(Sha(zip)) in s.disk then [] else [WriteTmp(zip), Publish(Sha(zip))]
  }

  /** The update's second half, with the fingerprint its first half read. */
  function CommitOps(s: Store, id: TaskId, seen: Sha, zip: Bytes): seq<Op> {
    var sha := Sha(zip);
    if sha == seen || TakenByOther(s.rows, id, sha) || id !in s.rows then [] else [SetSha(id, sha), Unlink(seen)]
  }

  function Program(s: Store, r: Request): seq<Op> {
    match r
    case UploadZip(zip, valid) =>
      if !valid then []
      else IngestOps(s, zip) + (if Sha(zip) in s.rows.Values then [] else [Insert(Sha(zip))])
    case UpdateZip(id, zip, valid) =>
      if id !in s.rows || !valid then []
      else IngestOps(s, zip) + CommitOps(s, id, s.rows[id], zip)
    case RemoveTask(id) =>
      if id !in s.rows then [] else [DropRow(id), Unlink(s.rows[id])]
  }

  datatype Ending = Finished | CrashedAfter(done: nat) | TornAt(done: nat, written: nat)

  function Play(s: Store, r: Request, e: Ending): Store {
    var ops := Program(s, r);
    match e
    case Finished => ExecAll(s, ops)
    case CrashedAfter(k) => if k <= |ops| then ExecAll(s, ops[..k]) else s
    case TornAt(k, n) =>
      if k < |ops| && ops[k].WriteTmp? then Torn(ExecAll(s, ops[..k]), ops[k].zip, n) else s
  }

  function Session(s: Store, rs: seq<(Request, Ending)>): Store
    decreases |rs|
  {
    if rs == [] then s
    else
      var (r, e) := rs[|rs| - 1];
      Play(Session(s, rs[..|rs| - 1]), r, e)
  }

  // ---------------------------------------------------------------- safety

  /**
   Every row's fingerprint names a zip on disk, every zip under its final name
   hashes to that name, and no two rows share a fingerprint.
   */
  ghost predicate Safe(s: Store) {
    && (forall id | id in s.rows :: id < s.nextId && Zip(s.rows[id]) in s.disk)
    && (forall f | f in s.disk && f.Zip? :: Sha(s.disk[f]) == f.sha)
    && (forall a, b | a in s.rows && b in s.rows && a != b :: s.rows[a] != s.rows[b])
  }

  /** Safe now and after each further sub-step, torn writes included. */
  ghost predicate SafeThroughout(s: Store, ops: seq<Op>)
    decreases |ops|
  {
    && Safe(s)
    && (ops != [] ==>
          && (ops[0].WriteTmp? ==> forall n: nat :: Safe(Torn(s, ops[0].zip, n)))
          && SafeThroughout(Exec(s, ops[0]), ops[1..]))
  }

  lemma ExecShort(s: Store, a: Op, b: Op)
    ensures ExecAll(s, []) == s && ExecAll(s, [a]) == Exec(s, a) && ExecAll(s, [a, b]) == Exec(Exec(s, a), b)
  {
    assert [a][1..] == [] && [a, b][1..] == [b] && [b][1..] == [];
    assert ExecAll(Exec(s, a), [b]) == ExecAll(Exec(Exec(s, a), b), []);
  }

  lemma SafeCons(s: Store, op: Op, rest: seq<Op>)
    requires Safe(s) && SafeThroughout(Exec(s, op), rest)
    ensures SafeThroughout(s, [op] + rest)
  {
    assert ([op] + rest)[1..] == rest;
    if op.WriteTmp? {
      forall n: nat ensures Safe(Torn(s, op.zip, n)) { TmpIsHarmless(s, op.zip, n); }
    }
  }

  lemma TmpIsHarmless(s: Store, zip: Bytes, n: nat)
    requires Safe(s)
    ensures Safe(Torn(s, zip, n)) && Safe(Exec(s, WriteTmp(zip)))
  {
  }

  /** Ingesting publishes the zip and touches no row and no other zip. */
  lemma IngestPublishes(s: Store, zip: Bytes)
    requires Safe(s)
    ensures var t := ExecAll(s, IngestOps(s, zip));
            && Safe(t) && t.rows == s.rows && t.nextId == s.nextId
            && Zip(Sha(zip)) in t.disk && t.disk[Zip(Sha(zip))] == zip
            && forall f | f in s.disk && f.Zip? :: f in t.disk && t.disk[f] == s.disk[f]
  {
    ExecShort(s, WriteTmp(zip), Publish(Sha(zip)));
  }

  lemma IngestIsSafe(s: Store, zip: Bytes, rest: seq<Op>)
    requires Safe(s) && SafeThroughout(ExecAll(s, IngestOps(s, zip)), rest)
    ensures SafeThroughout(s, IngestOps(s, zip) + rest)
  {
    if IngestOps(s, zip) == [] {
      assert IngestOps(s, zip) + rest == rest;
    } else {
      var a, b := WriteTmp(zip), Publish(Sha(zip));
      ExecShort(s, a, b);
      TmpIsHarmless(s, zip, 0);
      SafeCons(Exec(s, a), b, rest);
      SafeCons(s, a, [b] + rest);
      assert IngestOps(s, zip) + rest == [a] + ([b] + rest);
    }
  }

  lemma SafeShort(s: Store, a: Op, b: Op)
    requires Safe(s) && Safe(Exec(s, a))
    ensures SafeThroughout(s, []) && SafeThroughout(s, [a])
    ensures Safe(Exec(Exec(s, a), b)) ==> SafeThroughout(s, [a, b])
  {
    SafeCons(s, a, []);
    assert [a] + [] == [a] && [a] + [b] == [a, b];
    if Safe(Exec(Exec(s, a), b)) {
      SafeCons(Exec(s, a), b, []);
      assert [b] + [] == [b];
      SafeCons(s, a, [b]);
    }
  }

  /** Setting a free fingerprint, then unlinking the one it replaced. */
  lemma CommitIsSafe(s: Store, id: TaskId, sha: Sha)
    requires Safe(s) && id in s.rows && sha != s.rows[id] && Zip(sha) in s.disk && !TakenByOther(s.rows, id, sha)
    ensures SafeThroughout(s, [SetSha(id, sha), Unlink(s.rows[id])])
  {
    SafeShort(s, SetSha(id, sha), Unlink(s.rows[id]));
  }

  lemma ProgramIsSafe(s: Store, r: Request)
    requires Safe(s)
    ensures SafeThroughout(s, Program(s, r))
  {
    hide ExecAll;
    match r
    case UploadZip(zip, valid) =>
      IngestPublishes(s, zip);
      var t := ExecAll(s, IngestOps(s, zip));
      if valid && Sha(zip) !in s.rows.Values {
        SafeShort(t, Insert(Sha(zip)), Insert(Sha(zip)));
        IngestIsSafe(s, zip, [Insert(Sha(zip))]);
      } else {
        IngestIsSafe(s, zip, []);
      }
    case UpdateZip(id, zip, valid) =>
      IngestPublishes(s, zip);
      var t := ExecAll(s, IngestOps(s, zip));
      if id in s.rows && valid && CommitOps(s, id, s.rows[id], zip) != [] {
        CommitIsSafe(t, id, Sha(zip));
        IngestIsSafe(s, zip, CommitOps(s, id, s.rows[id], zip));
      } else {
        IngestIsSafe(s, zip, []);
      }
    case RemoveTask(id) =>
      if id in s.rows { SafeShort(s, DropRow(id), Unlink(s.rows[id])); }
  }

  lemma {:induction false} SafeAtEveryPoint(s: Store, ops: seq<Op>, k: nat)
    requires SafeThroughout(s, ops) && k <= |ops|
    ensures Safe(ExecAll(s, ops[..k]))
    ensures k < |ops| && ops[k].WriteTmp? ==> forall n: nat :: Safe(Torn(ExecAll(s, ops[..k]), ops[k].zip, n))
    decreases k
  {
    if k > 0 {
      SafeAtEveryPoint(Exec(s, ops[0]), ops[1..], k - 1);
      assert ops[..k][1..] == ops[1..][..k - 1];
    }
  }

  /**
   Main result: over any serialized session of uploads, updates and deletions,
   each finished or crashed at any point, the store is safe.
   */
  lemma {:induction false} SessionsAreSafe(s: Store, rs: seq<(Request, Ending)>)
    requires Safe(s)
    ensures Safe(Session(s, rs))
    decreases |rs|
  {
    if rs != [] {
      var (r, e) := rs[|rs| - 1];
      var t := Session(s, rs[..|rs| - 1]);
      SessionsAreSafe(s, rs[..|rs| - 1]);
      var ops := Program(t, r);
      ProgramIsSafe(t, r);
      match e
      case Finished =>
        SafeAtEveryPoint(t, ops, |ops|);
        assert ops[..|ops|] == ops;
      case CrashedAfter(k) => if k <= |ops| { SafeAtEveryPoint(t, ops, k); }
      case TornAt(k, n) => if k < |ops| { SafeAtEveryPoint(t, ops, k); }
    }
  }

  lemma {:induction false} ExecConcat(s: Store, a: seq<Op>, b: seq<Op>)
    ensures ExecAll(s, a + b) == ExecAll(ExecAll(s, a), b)
    decreases |a|
  {
    if a == [] {
      assert a + b == b;
    } else {
      assert (a + b)[1..] == a[1..] + b;
      ExecConcat(Exec(s, a[0]), a[1..], b);
    }
  }

  /** What a finished update does, sub-step by sub-step. */
  lemma CommitEffect(s: Store, id: TaskId, seen: Sha, zip: Bytes)
    requires Safe(s)
    ensures var t := ExecAll(s, IngestOps(s, zip));
            var u := ExecAll(s, IngestOps(s, zip) + CommitOps(s, id, seen, zip));
            u == if CommitOps(s, id, seen, zip) == [] then t
                 else t.(rows := t.rows[id := Sha(zip)], disk := t.disk - {Zip(seen)})
  {
    ExecConcat(s, IngestOps(s, zip), CommitOps(s, id, seen, zip));
    ExecShort(ExecAll(s, IngestOps(s, zip)), SetSha(id, Sha(zip)), Unlink(seen));
  }

  /** A finished update of an existing definition is what the next download returns. */
  lemma UpdateThenDownload(s: Store, id: TaskId, zip: Bytes)
    requires Safe(s) && id in s.rows && !TakenByOther(s.rows, id, Sha(zip))
    ensures var t := Play(s, UpdateZip(id, zip, true), Finished);
            && id in t.rows && Zip(t.rows[id]) in t.disk && t.disk[Zip(t.rows[id])] == zip
            && (forall k | k in s.rows && k != id ::
                  k in t.rows && t.rows[k] == s.rows[k] && Zip(t.rows[k]) in t.disk &&
                  t.disk[Zip(t.rows[k])] == s.disk[Zip(s.rows[k])])
  {
    hide ExecAll, IngestOps;
    IngestPublishes(s, zip);
    CommitEffect(s, id, s.rows[id], zip);
  }

  /** A finished valid upload leaves a definition of exactly these bytes. */
  lemma UploadThenDownload(s: Store, zip: Bytes)
    requires Safe(s)
    ensures var t := Play(s, UploadZip(zip, true), Finished);
            && Sha(zip) in t.rows.Values && Zip(Sha(zip)) in t.disk && t.disk[Zip(Sha(zip))] == zip
            && t.rows == if Sha(zip) in s.rows.Values then s.rows else s.rows[s.nextId := Sha(zip)]
  {
    hide IngestOps;
    IngestPublishes(s, zip);
    var t := ExecAll(s, IngestOps(s, zip));
    ExecShort(t, Insert(Sha(zip)), Insert(Sha(zip)));
    var rest := if Sha(zip) in s.rows.Values then [] else [Insert(Sha(zip))];
    ExecConcat(s, IngestOps(s, zip), rest);
    var u := ExecAll(t, rest);
    if rest != [] { assert s.nextId in u.rows && u.rows[s.nextId] == Sha(zip); }
  }

  /** A finished removal leaves neither the row nor its zip, and every other definition as it was. */
  lemma RemoveThenGone(s: Store, id: TaskId)
    requires Safe(s) && id in s.rows
    ensures var t := Play(s, RemoveTask(id), Finished);
            && t.rows == s.rows - {id} && t.nextId == s.nextId
            && Zip(s.rows[id]) !in t.disk
            && (forall f | f in s.disk && f != Zip(s.rows[id]) :: f in t.disk && t.disk[f] == s.disk[f])
            && (forall k | k in s.rows && k != id :: Zip(s.rows[k]) in t.disk)
  {
    ExecShort(s, DropRow(id), Unlink(s.rows[id]));
  }

  /** A finished update takes the replaced zip off the disk. */
  lemma UpdateDropsTheOldZip(s: Store, id: TaskId, zip: Bytes)
    requires Safe(s) && id in s.rows && !TakenByOther(s.rows, id, Sha(zip)) && Sha(zip) != s.rows[id]
    ensures Zip(s.rows[id]) !in Play(s, UpdateZip(id, zip, true), Finished).disk
  {
    hide ExecAll, IngestOps;
    IngestPublishes(s, zip);
    CommitEffect(s, id, s.rows[id], zip);
  }

  /** This request is answered with an error, or finds everything as it would leave it. */
  predicate Refused(s: Store, r: Request) {
    match r
    case UploadZip(_, valid) => !valid
    case UpdateZip(id, zip, valid) =>
      id !in s.rows || !valid || s.rows[id] == Sha(zip) || exists k | k in s.rows :: k != id && s.rows[k] == Sha(zip)
    case RemoveTask(id) => id !in s.rows
  }

  /** A refused request changes no row and loses no zip. */
  lemma RefusedKeepsAll(s: Store, r: Request)
    requires Safe(s) && Refused(s, r)
    ensures var t := Play(s, r, Finished);
            && t.rows == s.rows && t.nextId == s.nextId
            && (forall f | f in s.disk && f.Zip? :: f in t.disk && t.disk[f] == s.disk[f])
            && ((r.UpdateZip? && r.id in s.rows && r.valid) || t == s)
  {
    hide IngestOps;
    match r
    case UploadZip(zip, valid) =>
    case UpdateZip(id, zip, valid) =>
      IngestPublishes(s, zip);
      assert IngestOps(s, zip) + [] == IngestOps(s, zip);
    case RemoveTask(id) =>
  }

  // ---------------------------------------------------------------- a stale record

  /**
   Updates are not serialized in the program: the record is read before the
   upload is awaited.  The second half, run with whatever fingerprint was seen
   then, keeps the store safe exactly when it either changes nothing or no other
   definition has that fingerprint by now.
   */
  lemma StaleUpdateIsSafeIff(s: Store, id: TaskId, seen: Sha, zip: Bytes)
    requires Safe(s)
    ensures Safe(ExecAll(s, IngestOps(s, zip) + CommitOps(s, id, seen, zip))) <==>
            (CommitOps(s, id, seen, zip) == [] || !TakenByOther(s.rows, id, seen))
  {
    hide ExecAll, IngestOps;
    IngestPublishes(s, zip);
    CommitEffect(s, id, seen, zip);
    var u := ExecAll(s, IngestOps(s, zip) + CommitOps(s, id, seen, zip));
    if CommitOps(s, id, seen, zip) != [] && TakenByOther(s.rows, id, seen) {
      var k :| k in s.rows && k != id && s.rows[k] == seen;
      assert k in u.rows && Zip(u.rows[k]) !in u.disk;
    }
  }

  /**
   The failing interleaving: two updates of definition 1 overlap, a third party
   uploads the zip that was replaced first, and the slower update deletes it.
   */
  lemma OverlappingUpdatesLoseAZip(a: Bytes, b: Bytes, c: Bytes)
    requires a != b && b != c && a != c
    ensures var s0 := Store(map[Zip(Sha(a)) := a], map[1 := Sha(a)], 2);
            var seen := s0.rows[1];
            var s1 := Play(s0, UpdateZip(1, b, true), Finished);
            var s2 := Play(s1, UploadZip(a, true), Finished);
            var s3 := ExecAll(s2, IngestOps(s2, c) + CommitOps(s2, 1, seen, c));
            Safe(s0) && Safe(s1) && Safe(s2) && !Safe(s3)
  {
    hide ExecAll, IngestOps, Program;
    var s0 := Store(map[Zip(Sha(a)) := a], map[1 := Sha(a)], 2);
    var s1, s2 := AfterTwoRequests(a, b, s0);
    StaleUpdateIsSafeIff(s2, 1, Sha(a), c);
    assert 2 in s2.rows;
  }

  lemma AfterTwoRequests(a: Bytes, b: Bytes, s0: Store) returns (s1: Store, s2: Store)
    requires a != b && s0 == Store(map[Zip(Sha(a)) := a], map[1 := Sha(a)], 2)
    ensures s1 == Play(s0, UpdateZip(1, b, true), Finished) && s2 == Play(s1, UploadZip(a, true), Finished)
    ensures Safe(s0) && Safe(s1) && Safe(s2) && s2.rows == map[1 := Sha(b), 2 := Sha(a)]
  {
    hide ExecAll, IngestOps;
    s1 := Play(s0, UpdateZip(1, b, true), Finished);
    s2 := Play(s1, UploadZip(a, true), Finished);
    FinishedIsSafe(s0, UpdateZip(1, b, true));
    IngestPublishes(s0, b);
    CommitEffect(s0, 1, Sha(a), b);
    assert s1.rows == map[1 := Sha(b)] && s1.nextId == 2;
    FinishedIsSafe(s1, UploadZip(a, true));
    UploadThenDownload(s1, a);
  }

  lemma FinishedIsSafe(s: Store, r: Request)
    requires Safe(s)
    ensures Safe(Play(s, r, Finished))
  {
    var ops := Program(s, r);
    ProgramIsSafe(s, r);
    SafeAtEveryPoint(s, ops, |ops|);
    assert ops[..|ops|] == ops;
  }
}
