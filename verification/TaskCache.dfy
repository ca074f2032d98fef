/**
 The runner's cache of extracted task zips: any number of coroutines inside
 `ensure`, one lock per task, and a download that may answer with anything.
 Every step runs from one suspension point to the next.
 */
module TaskCache {
  import opened Options
  import opened ControlPlane
  import opened TaskZips

  type Caller = nat

  /** An extracted zip and the fingerprint in its marker file. */
  datatype Dir = Dir(marker: Sha, zip: Bytes)

  datatype Pc =
    | Outside
    | Waiting(task: TaskId, sha: Sha)
    | Fetching(task: TaskId, sha: Sha)
    | Installing(task: TaskId, sha: Sha, zip: Bytes)
    | Installed(task: TaskId, sha: Sha)

  /**
   `strays` are installs whose coroutine was cancelled while the thread went on;
   each may land at any later time, and equal ones are one element, so more than once.
   `closing` is the worker's shutdown: it has cancelled everyone and starts no more.
   */
  datatype Cache = Cache(
    dirs: map<TaskId, Dir>,
    holders: map<TaskId, Caller>,
    pcs: map<Caller, Pc>,
    strays: set<(TaskId, Sha, Bytes)>,
    closing: bool)

  datatype Move =
    | Enter(c: Caller, task: TaskId, sha: Sha)
    | TakeLock(c: Caller)
    | Downloaded(c: Caller, zip: Option<Bytes>)
    | Extracted(c: Caller, ok: bool)
    | Resume(c: Caller)
    | Abort(c: Caller)
    | StrayLands(install: (TaskId, Sha, Bytes))
    | Shutdown
    | Restart

  predicate ByCaller(m: Move) {
    !m.StrayLands? && !m.Shutdown? && !m.Restart?
  }

  datatype Answer = Nothing | Ready(task: TaskId, sha: Sha) | FetchError

  function At(s: Cache, c: Caller): Pc {
    if c in s.pcs then s.pcs[c] else Outside
  }

  predicate Hit(dirs: map<TaskId, Dir>, task: TaskId, sha: Sha) {
    task in dirs && dirs[task].marker == sha
  }

  predicate Inside(pc: Pc) {
    pc.Fetching? || pc.Installing? || pc.Installed?
  }

  function Goto(s: Cache, c: Caller, pc: Pc): Cache {
    s.(pcs := s.pcs[c := pc])
  }

  /** Leave the `async with` block. */
  function Release(s: Cache, c: Caller): Cache
    requires Inside(At(s, c))
  {
    Goto(s.(holders := s.holders - {At(s, c).task}), c, Outside)
  }

  function Install(dirs: map<TaskId, Dir>, task: TaskId, sha: Sha, zip: Bytes): map<TaskId, Dir> {
    dirs[task := Dir(sha, zip)]
  }

  /** The installs whose callers are being cancelled. */
  function Outlived(pcs: map<Caller, Pc>): set<(TaskId, Sha, Bytes)> {
    set c | c in pcs && pcs[c].Installing? :: (pcs[c].task, pcs[c].sha, pcs[c].zip)
  }

  function Move1(s: Cache, m: Move): (Cache, Answer) {
    match m
    case StrayLands(i) =>
      if i !in s.strays then (s, Nothing)
      else (s.(dirs := Install(s.dirs, i.0, i.1, i.2)), Nothing)
    case Shutdown => (Cache(s.dirs, map[], map[], s.strays + Outlived(s.pcs), true), Nothing)
    case Restart => (Cache(s.dirs, map[], map[], {}, false), Nothing)
    case _ => CallerMove(s, m)
  }

  /** One coroutine runs up to its next suspension point. */
  function CallerMove(s: Cache, m: Move): (Cache, Answer)
    requires ByCaller(m)
  {
    match m
    case Enter(c, task, sha) =>
      if !At(s, c).Outside? || s.closing then (s, Nothing)
      else if Hit(s.dirs, task, sha) then (s, Ready(task, sha))
      else (Goto(s, c, Waiting(task, sha)), Nothing)
    case TakeLock(c) =>
      var pc := At(s, c);
      if !pc.Waiting? || pc.task in s.holders then (s, Nothing)
      else if Hit(s.dirs, pc.task, pc.sha) then (Goto(s, c, Outside), Ready(pc.task, pc.sha))
      else (Goto(s.(holders := s.holders[pc.task := c]), c, Fetching(pc.task, pc.sha)), Nothing)
    case Downloaded(c, zip) =>
      var pc := At(s, c);
      if !pc.Fetching? then (s, Nothing)
      else if zip.None? || Sha(zip.value) != pc.sha then (Release(s, c), FetchError)
      else (Goto(s, c, Installing(pc.task, pc.sha, zip.value)), Nothing)
    case Extracted(c, ok) =>
      var pc := At(s, c);
      if !pc.Installing? then (s, Nothing)
      else if !ok then (Release(s, c), FetchError)
      else (Goto(s.(dirs := Install(s.dirs, pc.task, pc.sha, pc.zip)), c, Installed(pc.task, pc.sha)), Nothing)
    case Resume(c) =>
      var pc := At(s, c);
      if !pc.Installed? then (s, Nothing) else (Release(s, c), Ready(pc.task, pc.sha))
    case Abort(c) =>
      var pc := At(s, c);
      if pc.Installing? then
        (Release(s, c).(strays := s.strays + {(pc.task, pc.sha, pc.zip)}), Nothing)
      else if Inside(pc) then (Release(s, c), Nothing)
      else (Goto(s, c, Outside), Nothing)
  }

  function After(s: Cache, ms: seq<Move>): Cache
    decreases |ms|
  {
    if ms == [] then s else Move1(After(s, ms[..|ms| - 1]), ms[|ms| - 1]).0
  }

  // ---------------------------------------------------------------- invariants

  /** Every directory is the extraction of bytes that hash to its marker. */
  ghost predicate Verified(s: Cache) {
    && (forall t | t in s.dirs :: Sha(s.dirs[t].zip) == s.dirs[t].marker)
    && (forall c | At(s, c).Installing? :: Sha(At(s, c).zip) == At(s, c).sha)
    && (forall i | i in s.strays :: Sha(i.2) == i.1)
  }

  /** Exactly the holder of a task's lock is inside its critical section. */
  ghost predicate Exclusive(s: Cache) {
    && (forall c | Inside(At(s, c)) :: At(s, c).task in s.holders && s.holders[At(s, c).task] == c)
    && (forall t | t in s.holders :: Inside(At(s, s.holders[t])) && At(s, s.holders[t]).task == t)
  }

  /**
   No cancelled install is at large while anyone may be inside; so a download is
   still needed and an install still stands.
   */
  ghost predicate Undisturbed(s: Cache) {
    && (if s.closing then forall c :: At(s, c).Outside? else s.strays == {})
    && (forall c | At(s, c).Fetching? :: !Hit(s.dirs, At(s, c).task, At(s, c).sha))
    && (forall c | At(s, c).Installed? :: Hit(s.dirs, At(s, c).task, At(s, c).sha))
  }

  ghost predicate Sound(s: Cache) {
    Verified(s) && Exclusive(s)
  }

  /** No coroutine is cancelled between handing its zip to the thread and the thread's end. */
  ghost predicate NoStray(s: Cache, m: Move) {
    m.Abort? ==> !At(s, m.c).Installing?
  }

  ghost predicate Gentle(s: Cache, ms: seq<Move>)
    decreases |ms|
  {
    ms == [] || (Gentle(s, ms[..|ms| - 1]) && NoStray(After(s, ms[..|ms| - 1]), ms[|ms| - 1]))
  }

  /** Only the moving caller's place changes, and a shutdown or restart empties every place. */
  lemma OthersStay(s: Cache, m: Move)
    ensures var t := Move1(s, m).0;
            forall c :: At(t, c) == if m.Restart? || m.Shutdown? then Outside
                                    else if m.StrayLands? || m.c != c then At(s, c)
                                    else At(t, c)
  {
    hide CallerMove;
    if ByCaller(m) { CallersStay(s, m); }
  }

  lemma CallersStay(s: Cache, m: Move)
    requires ByCaller(m)
    ensures forall c | c != m.c :: At(CallerMove(s, m).0, c) == At(s, c)
  {
    hide Hit, Install;
  }

  lemma MoveKeepsVerified(s: Cache, m: Move)
    requires Verified(s)
    ensures Verified(Move1(s, m).0)
  {
    hide Hit, CallerMove;
    if ByCaller(m) {
      CallerKeepsVerified(s, m);
    } else {
      OthersStay(s, m);
      assert forall c | c in s.pcs :: At(s, c) == s.pcs[c];
    }
  }

  lemma CallerKeepsVerified(s: Cache, m: Move)
    requires Verified(s) && ByCaller(m)
    ensures Verified(CallerMove(s, m).0)
  {
    hide CallerMove;
    CallersStay(s, m);
    CallerVerifies(s, m);
    CallerInstallsVerified(s, m);
  }

  /** Nothing gets past the fingerprint check. */
  lemma CallerVerifies(s: Cache, m: Move)
    requires Verified(s) && ByCaller(m)
    ensures var pc := At(CallerMove(s, m).0, m.c); pc.Installing? ==> Sha(pc.zip) == pc.sha
  {
    hide Hit, Install;
  }

  lemma CallerInstallsVerified(s: Cache, m: Move)
    requires Verified(s) && ByCaller(m)
    ensures var t := CallerMove(s, m).0;
            && (forall k | k in t.dirs :: Sha(t.dirs[k].zip) == t.dirs[k].marker)
            && (forall i | i in t.strays :: Sha(i.2) == i.1)
  {
    hide Hit;
  }

  /** A move touches no lock but the one its caller takes or leaves. */
  lemma LocksMoveWithTheirHolder(s: Cache, m: Move)
    requires Exclusive(s) && ByCaller(m)
    ensures var t := CallerMove(s, m).0;
            && (forall k | k in t.holders && t.holders[k] != m.c :: k in s.holders && s.holders[k] == t.holders[k])
            && (forall k | k in s.holders && s.holders[k] != m.c :: k in t.holders && t.holders[k] == s.holders[k])
  {
    hide Hit, Install;
  }

  /** Its caller is inside exactly if it holds the lock afterwards. */
  lemma MoverHoldsItsLock(s: Cache, m: Move)
    requires Exclusive(s) && ByCaller(m)
    ensures var t := CallerMove(s, m).0;
            Inside(At(t, m.c)) ==> At(t, m.c).task in t.holders && t.holders[At(t, m.c).task] == m.c
  {
    hide Hit, Install;
  }

  lemma MoverOutsideHoldsNone(s: Cache, m: Move)
    requires Exclusive(s) && ByCaller(m)
    ensures var t := CallerMove(s, m).0;
            forall k | k in t.holders && t.holders[k] == m.c :: Inside(At(t, m.c)) && At(t, m.c).task == k
  {
    hide Hit, Install;
  }

  lemma MoveKeepsExclusive(s: Cache, m: Move)
    requires Exclusive(s)
    ensures Exclusive(Move1(s, m).0)
  {
    OthersStay(s, m);
    if ByCaller(m) {
      hide CallerMove, Inside;
      LocksMoveWithTheirHolder(s, m);
      MoverHoldsItsLock(s, m);
      MoverOutsideHoldsNone(s, m);
    }
  }

  lemma MoveKeepsUndisturbed(s: Cache, m: Move)
    requires Exclusive(s) && Undisturbed(s) && NoStray(s, m)
    ensures Undisturbed(Move1(s, m).0)
  {
    hide CallerMove;
    OthersStay(s, m);
    if ByCaller(m) { CallerKeepsUndisturbed(s, m); }
  }

  lemma CallerKeepsUndisturbed(s: Cache, m: Move)
    requires Exclusive(s) && Undisturbed(s) && NoStray(s, m) && ByCaller(m)
    ensures Undisturbed(CallerMove(s, m).0)
  {
    CallersStay(s, m);
  }

  lemma {:induction false} RunsAreSound(s: Cache, ms: seq<Move>)
    requires Sound(s)
    ensures Sound(After(s, ms))
    decreases |ms|
  {
    hide Move1;
    if ms != [] {
      RunsAreSound(s, ms[..|ms| - 1]);
      MoveKeepsVerified(After(s, ms[..|ms| - 1]), ms[|ms| - 1]);
      MoveKeepsExclusive(After(s, ms[..|ms| - 1]), ms[|ms| - 1]);
    }
  }

  lemma {:induction false} GentleRunsAreUndisturbed(s: Cache, ms: seq<Move>)
    requires Sound(s) && Undisturbed(s) && Gentle(s, ms)
    ensures Undisturbed(After(s, ms))
    decreases |ms|
  {
    hide Move1;
    if ms != [] {
      GentleRunsAreUndisturbed(s, ms[..|ms| - 1]);
      RunsAreSound(s, ms[..|ms| - 1]);
      MoveKeepsUndisturbed(After(s, ms[..|ms| - 1]), ms[|ms| - 1]);
    }
  }

  // ---------------------------------------------------------------- main results

  /** A cache left by an earlier process: whole directories, nobody inside. */
  ghost predicate Left(s: Cache) {
    Verified(s) && s.holders == map[] && s.pcs == map[] && s.strays == {} && !s.closing
  }

  /**
   Main result: whatever the interleaving, when `ensure(task, sha)` returns, the
   directory is the extraction of bytes that hash to `sha`.
   */
  lemma EnsureReturnsWhatWasAsked(s: Cache, ms: seq<Move>, m: Move)
    requires Left(s) && Gentle(s, ms + [m])
    ensures var (t, answer) := Move1(After(s, ms), m);
            answer.Ready? ==>
              answer.task in t.dirs && t.dirs[answer.task].marker == answer.sha &&
              Sha(t.dirs[answer.task].zip) == answer.sha
  {
    assert (ms + [m])[..|ms|] == ms;
    RunsAreSound(s, ms);
    GentleRunsAreUndisturbed(s, ms);
  }

  /** The worker cancels nobody singly: it shuts down, cancelling everyone at once. */
  ghost predicate CancelsOnlyAll(ms: seq<Move>) {
    forall i | 0 <= i < |ms| :: !ms[i].Abort?
  }

  lemma {:induction false} WorkerRunsAreGentle(s: Cache, ms: seq<Move>)
    requires CancelsOnlyAll(ms)
    ensures Gentle(s, ms)
    decreases |ms|
  {
    if ms != [] {
      assert forall i | 0 <= i < |ms| - 1 :: ms[..|ms| - 1][i] == ms[i];
      WorkerRunsAreGentle(s, ms[..|ms| - 1]);
    }
  }

  /** Main result for the worker as it is: shutdowns and restarts at any time do no harm. */
  lemma EnsureReturnsWhatTheWorkerAsked(s: Cache, ms: seq<Move>, m: Move)
    requires Left(s) && CancelsOnlyAll(ms + [m])
    ensures var (t, answer) := Move1(After(s, ms), m);
            answer.Ready? ==>
              answer.task in t.dirs && t.dirs[answer.task].marker == answer.sha &&
              Sha(t.dirs[answer.task].zip) == answer.sha
  {
    hide Move1, Left;
    WorkerRunsAreGentle(s, ms + [m]);
    EnsureReturnsWhatWasAsked(s, ms, m);
  }

  /**
   A download is in flight only while the directory does not match, from the
   moment the lock was taken until the answer; two for one task never overlap.
   */
  lemma DownloadsAreNeededAndAlone(s: Cache, ms: seq<Move>, a: Caller, b: Caller)
    requires Left(s) && Gentle(s, ms)
    ensures var t := After(s, ms);
            && (At(t, a).Fetching? ==> !Hit(t.dirs, At(t, a).task, At(t, a).sha))
            && (Inside(At(t, a)) && Inside(At(t, b)) && At(t, a).task == At(t, b).task ==> a == b)
  {
    RunsAreSound(s, ms);
    GentleRunsAreUndisturbed(s, ms);
  }

  /** What `ensure` refuses: a failed download, a wrong fingerprint, a bad archive; the cache stays as it was. */
  lemma RefusalLeavesTheCache(s: Cache, m: Move)
    requires Sound(s)
    ensures var (t, answer) := Move1(s, m);
            && (answer.FetchError? ==> t.dirs == s.dirs && !Inside(At(t, m.c)) && At(s, m.c).task !in t.holders)
            && (answer.FetchError? <==>
                  || (m.Downloaded? && At(s, m.c).Fetching? && (m.zip.None? || Sha(m.zip.value) != At(s, m.c).sha))
                  || (m.Extracted? && At(s, m.c).Installing? && !m.ok))
  {
  }

  /** A hit is served at once, without the lock; a caller alone on a miss is served in five moves. */
  lemma CallersAreServed(s: Cache, c: Caller, task: TaskId, zip: Bytes)
    requires At(s, c).Outside? && !s.closing
    ensures Hit(s.dirs, task, Sha(zip)) ==> Move1(s, Enter(c, task, Sha(zip))) == (s, Ready(task, Sha(zip)))
    ensures !Hit(s.dirs, task, Sha(zip)) && task !in s.holders ==>
              var ms := [Enter(c, task, Sha(zip)), TakeLock(c), Downloaded(c, Some(zip)), Extracted(c, true)];
              var (t, answer) := Move1(After(s, ms), Resume(c));
              && answer == Ready(task, Sha(zip)) && t.dirs == s.dirs[task := Dir(Sha(zip), zip)]
              && t.holders == s.holders && At(t, c).Outside?
  {
    if !Hit(s.dirs, task, Sha(zip)) && task !in s.holders {
      FetchAlone(s, c, task, zip);
      var ms := [Enter(c, task, Sha(zip)), TakeLock(c), Downloaded(c, Some(zip))];
      var t := ThenMove(s, ms, Extracted(c, true));
      assert ms + [Extracted(c, true)] ==
             [Enter(c, task, Sha(zip)), TakeLock(c), Downloaded(c, Some(zip)), Extracted(c, true)];
      assert s.holders[task := c] - {task} == s.holders;
    }
  }

  /** The last outlived install to replace this task's directory during `ms`. */
  function LastStray(s: Cache, ms: seq<Move>, task: TaskId): Option<Sha>
    decreases |ms|
  {
    if ms == [] then None
    else
      var front, m := ms[..|ms| - 1], ms[|ms| - 1];
      if m.StrayLands? && m.install in After(s, front).strays && m.install.0 == task then Some(m.install.1)
      else LastStray(s, front, task)
  }

  predicate MovesOther(m: Move, c: Caller) {
    m.StrayLands? || (ByCaller(m) && m.c != c)
  }

  lemma OthersLeaveTheHoldersDir(s: Cache, m: Move, c: Caller)
    requires Exclusive(s) && At(s, c).Installed? && MovesOther(m, c)
    ensures var t := Move1(s, m).0;
            var task := At(s, c).task;
            && At(t, c) == At(s, c)
            && Lookup(t.dirs, task) ==
               if m.StrayLands? && m.install in s.strays && m.install.0 == task
               then Some(Dir(m.install.1, m.install.2)) else Lookup(s.dirs, task)
  {
    if m.Extracted? && At(s, m.c).Installing? {
      assert s.holders[At(s, m.c).task] == m.c;
    }
  }

  /**
   With cancellations allowed, exactly what can spoil a finished install before
   its caller resumes: an outlived install of a different zip landing last.
   */
  lemma {:induction false} InstallStandsIff(s: Cache, ms: seq<Move>, c: Caller)
    requires Sound(s) && At(s, c).Installed? && Hit(s.dirs, At(s, c).task, At(s, c).sha)
    requires forall i | 0 <= i < |ms| :: MovesOther(ms[i], c)
    ensures At(After(s, ms), c) == At(s, c)
    ensures Hit(After(s, ms).dirs, At(s, c).task, LastStray(s, ms, At(s, c).task).GetOr(At(s, c).sha))
    ensures Hit(After(s, ms).dirs, At(s, c).task, At(s, c).sha) <==>
            LastStray(s, ms, At(s, c).task) in {None, Some(At(s, c).sha)}
    decreases |ms|
  {
    hide Move1;
    if ms != [] {
      var front := ms[..|ms| - 1];
      InstallStandsIff(s, front, c);
      RunsAreSound(s, front);
      OthersLeaveTheHoldersDir(After(s, front), ms[|ms| - 1], c);
    }
  }

  /**
   With one coroutine cancelled mid-install and another going on the promise of
   `ensure` fails: the thread that outlives the first replaces the directory the
   second is about to be given.  The worker never cancels in that way.
   */
  lemma CancelledInstallBreaksIt(a: Bytes, b: Bytes)
    requires a != b
    ensures var s := Cache(map[], map[], map[], {}, false);
            var ms := [Enter(1, 7, Sha(a)), TakeLock(1), Downloaded(1, Some(a)), Abort(1),
                       Enter(2, 7, Sha(b)), TakeLock(2), Downloaded(2, Some(b)), Extracted(2, true),
                       StrayLands((7, Sha(a), a))];
            var (t, answer) := Move1(After(s, ms), Resume(2));
            Left(s) && answer == Ready(7, Sha(b)) && t.dirs == map[7 := Dir(Sha(a), a)]
  {
    hide Move1;
    var s := Cache(map[], map[], map[], {}, false);
    var ms := [Enter(1, 7, Sha(a)), TakeLock(1), Downloaded(1, Some(a)), Abort(1)];
    FetchThenAbort(s, a);
    var u := After(s, ms);
    FetchAlone(u, 2, 7, b);
    var more := [Enter(2, 7, Sha(b)), TakeLock(2), Downloaded(2, Some(b))];
    var rest := [Extracted(2, true), StrayLands((7, Sha(a), a))];
    LoseTheRace(After(u, more), a, b);
    AfterConcat(s, ms, more);
    AfterConcat(s, ms + more, rest);
    assert ms + more + rest ==
           [Enter(1, 7, Sha(a)), TakeLock(1), Downloaded(1, Some(a)), Abort(1),
            Enter(2, 7, Sha(b)), TakeLock(2), Downloaded(2, Some(b)), Extracted(2, true),
            StrayLands((7, Sha(a), a))];
  }

  lemma ThenMove(s: Cache, ms: seq<Move>, m: Move) returns (t: Cache)
    ensures t == After(s, ms + [m]) == Move1(After(s, ms), m).0
  {
    hide Move1;
    assert (ms + [m])[..|ms|] == ms;
    t := After(s, ms + [m]);
  }

  /** A caller with no rival takes the lock and fetches. */
  lemma FetchAlone(s: Cache, c: Caller, task: TaskId, zip: Bytes)
    requires At(s, c).Outside? && !Hit(s.dirs, task, Sha(zip)) && task !in s.holders && !s.closing
    ensures After(s, [Enter(c, task, Sha(zip)), TakeLock(c), Downloaded(c, Some(zip))]) ==
            s.(holders := s.holders[task := c], pcs := s.pcs[c := Installing(task, Sha(zip), zip)])
  {
    var m1 := [Enter(c, task, Sha(zip))];
    var m2 := m1 + [TakeLock(c)];
    var t := ThenMove(s, [], m1[0]);
    assert [] + [m1[0]] == m1;
    t := ThenMove(s, m1, TakeLock(c));
    assert t == s.(holders := s.holders[task := c], pcs := s.pcs[c := Fetching(task, Sha(zip))]);
    t := ThenMove(s, m2, Downloaded(c, Some(zip)));
    assert m2 + [Downloaded(c, Some(zip))] == [Enter(c, task, Sha(zip)), TakeLock(c), Downloaded(c, Some(zip))];
  }

  lemma FetchThenAbort(s: Cache, a: Bytes)
    requires s == Cache(map[], map[], map[], {}, false)
    ensures After(s, [Enter(1, 7, Sha(a)), TakeLock(1), Downloaded(1, Some(a)), Abort(1)]) ==
            Cache(map[], map[], map[1 := Outside], {(7, Sha(a), a)}, false)
  {
    FetchAlone(s, 1, 7, a);
    var ms := [Enter(1, 7, Sha(a)), TakeLock(1), Downloaded(1, Some(a))];
    var t := ThenMove(s, ms, Abort(1));
    assert t.holders == map[] && t.pcs == map[1 := Outside];
    assert ms + [Abort(1)] == [Enter(1, 7, Sha(a)), TakeLock(1), Downloaded(1, Some(a)), Abort(1)];
  }

  lemma LoseTheRace(s: Cache, a: Bytes, b: Bytes)
    requires s.dirs == map[] && At(s, 2) == Installing(7, Sha(b), b) && (7, Sha(a), a) in s.strays
    ensures var (t, answer) := Move1(After(s, [Extracted(2, true), StrayLands((7, Sha(a), a))]), Resume(2));
            answer == Ready(7, Sha(b)) && t.dirs == map[7 := Dir(Sha(a), a)]
  {
    var t := ThenMove(s, [], Extracted(2, true));
    assert [] + [Extracted(2, true)] == [Extracted(2, true)];
    t := ThenMove(s, [Extracted(2, true)], StrayLands((7, Sha(a), a)));
    assert At(t, 2) == Installed(7, Sha(b)) && t.dirs == map[7 := Dir(Sha(a), a)];
    assert [Extracted(2, true)] + [StrayLands((7, Sha(a), a))] == [Extracted(2, true), StrayLands((7, Sha(a), a))];
  }

  lemma {:induction false} AfterConcat(s: Cache, a: seq<Move>, b: seq<Move>)
    ensures After(s, a + b) == After(After(s, a), b)
    decreases |b|
  {
    if b == [] {
      assert a + b == a;
    } else {
      assert (a + b)[..|a + b| - 1] == a + b[..|b| - 1];
      AfterConcat(s, a, b[..|b| - 1]);
    }
  }

  // ---------------------------------------------------------------- one caller, as written

  class TaskDirs {
    var dirs: map<TaskId, Dir>

    ghost predicate Valid()
      reads this
    {
      Verified(Cache(dirs, map[], map[], {}, false))
    }

    constructor (left: map<TaskId, Dir>)
      requires Verified(Cache(left, map[], map[], {}, false))
      ensures Valid() && dirs == left
    {
      dirs := left;
    }

    method IsHit(task: TaskId, sha: Sha) returns (hit: bool)
      ensures hit <==> Hit(dirs, task, sha)
    {
      if task !in dirs {
        return false;
      }
      hit := dirs[task].marker == sha;
    }

    /** Extract beside the old directory, write the marker, then swap. */
    method InstallZip(task: TaskId, sha: Sha, zip: Bytes, extractable: bool) returns (ok: bool)
      modifies this
      ensures ok == extractable
      ensures dirs == if ok then Install(old(dirs), task, sha, zip) else old(dirs)
    {
      if !extractable {
        return false;
      }
      var temp := Dir(sha, zip);
      if task in dirs {
        dirs := dirs - {task};
      }
      dirs := dirs[task := temp];
      ok := true;
    }

    /** `ensure` with nobody else inside; `fetched` and `extractable` are what the world answers. */
    method Ensure(task: TaskId, sha: Sha, fetched: Option<Bytes>, extractable: bool) returns (answer: Answer)
      requires Valid()
      modifies this
      ensures Valid()
      ensures answer.Ready? <==>
              Hit(old(dirs), task, sha) || (fetched.Some? && Sha(fetched.value) == sha && extractable)
      ensures !answer.Ready? ==> answer == FetchError && dirs == old(dirs)
      ensures answer.Ready? ==> answer == Ready(task, sha) && Hit(dirs, task, sha) && Sha(dirs[task].zip) == sha
      ensures Hit(old(dirs), task, sha) ==> dirs == old(dirs)
      ensures forall t | t in old(dirs) && t != task :: t in dirs && dirs[t] == old(dirs)[t]
      ensures dirs.Keys <= old(dirs).Keys + {task}
    {
      var hit := IsHit(task, sha);
      if hit {
        return Ready(task, sha);
      }
      hit := IsHit(task, sha);
      if hit {
        return Ready(task, sha);
      }
      if fetched.None? || Sha(fetched.value) != sha {
        return FetchError;
      }
      var ok := InstallZip(task, sha, fetched.value, extractable);
      answer := if ok then Ready(task, sha) else FetchError;
    }
  }

  /**
   A claim answers with the fingerprint of the current definition, or with the
   job's own snapshot when the definition is gone, and the row keeps that answer.
   */
  lemma ClaimNamesTheCurrentDefinition(cfg: Config, s: Server, now: Time, e: Event)
    requires e.Claim? && ClaimStep(cfg, s, now, e).reply.Claimed?
    ensures var r := ClaimStep(cfg, s, now, e);
            var id := r.reply.job;
            && id in s.jobs && id in r.server.jobs
            && r.reply.sha == r.server.jobs[id].snapshot.sha
            && (s.jobs[id].taskId in s.defs ==> r.reply.sha == s.defs[s.jobs[id].taskId].sha)
            && (s.jobs[id].taskId !in s.defs ==> r.server.jobs[id].snapshot == s.jobs[id].snapshot)
  {
  }
}
