/**
 The in-memory metrics store: a bounded deque per runner against the unbounded
 history of everything ever appended.  Client timestamps may be in any order; only
 the store's own clock is monotone.
 */
module RunnerMetrics {
  import opened Options

  datatype Point = Point(ts: int, cpu: real, memory: real, disk: real, activeTasks: int)

  function Since(points: seq<Point>, cutoff: int): seq<Point> {
    if points == [] then []
    else (if points[0].ts >= cutoff then [points[0]] else []) + Since(points[1..], cutoff)
  }

  predicate AllOlder(points: seq<Point>, cutoff: int) {
    forall i | 0 <= i < |points| :: points[i].ts < cutoff
  }

  function LastOf(points: seq<Point>): Option<Point> {
    if points == [] then None else Some(points[|points| - 1])
  }

  /** The last arrival, unless everything that ever arrived is older than the cutoff. */
  function LatestIn(history: seq<Point>, cutoff: int): Option<Point> {
    if AllOlder(history, cutoff) then None else LastOf(history)
  }

  /** `bucket` is `history` without a beginning that is older than the cutoff throughout. */
  ghost predicate Refines(bucket: seq<Point>, history: seq<Point>, cutoff: int) {
    && |bucket| <= |history|
    && bucket == history[|history| - |bucket|..]
    && AllOlder(history[..|history| - |bucket|], cutoff)
  }

  function Kept(point: Point, cutoff: int): seq<Point> {
    if point.ts >= cutoff then [point] else []
  }

  lemma SinceOneMore(points: seq<Point>, cutoff: int)
    requires points != []
    ensures Since(points, cutoff) == Kept(points[0], cutoff) + Since(points[1..], cutoff)
  {
  }

  lemma {:induction false} SinceConcat(a: seq<Point>, b: seq<Point>, cutoff: int)
    ensures Since(a + b, cutoff) == Since(a, cutoff) + Since(b, cutoff)
    decreases |a|
  {
    if a == [] {
      assert a + b == b;
    } else {
      hide Since, Kept;
      SinceConcat(a[1..], b, cutoff);
      SinceOneMore(a, cutoff);
      SinceOneMore(a + b, cutoff);
      assert (a + b)[1..] == a[1..] + b;
    }
  }

  lemma {:induction false} SinceOfOlder(a: seq<Point>, cutoff: int)
    requires AllOlder(a, cutoff)
    ensures Since(a, cutoff) == []
  {
    if a != [] { SinceOfOlder(a[1..], cutoff); }
  }

  /** What pruning dropped, no window that starts at the pruning cutoff or later asks for. */
  lemma RefinementAnswersWindows(bucket: seq<Point>, history: seq<Point>, cutoff: int, from: int)
    requires Refines(bucket, history, cutoff) && cutoff <= from
    ensures Since(bucket, from) == Since(history, from)
  {
    var dropped := history[..|history| - |bucket|];
    assert history == dropped + bucket;
    SinceOfOlder(dropped, from);
    SinceConcat(dropped, bucket, from);
  }

  /** A window reaching behind the cutoff is answered in full exactly when nothing in it was dropped. */
  lemma LongWindowsIff(bucket: seq<Point>, history: seq<Point>, cutoff: int, from: int)
    requires Refines(bucket, history, cutoff)
    ensures Since(bucket, from) == Since(history, from) <==>
            AllOlder(history[..|history| - |bucket|], from)
  {
    var dropped := history[..|history| - |bucket|];
    assert history == dropped + bucket;
    SinceConcat(dropped, bucket, from);
    if AllOlder(dropped, from) {
      SinceOfOlder(dropped, from);
    } else {
      var i :| 0 <= i < |dropped| && dropped[i].ts >= from;
      SinceIsInhabited(dropped, from, i);
      assert |Since(dropped, from) + Since(bucket, from)| > |Since(bucket, from)|;
    }
  }

  lemma {:induction false} SinceIsInhabited(a: seq<Point>, from: int, i: nat)
    requires i < |a| && a[i].ts >= from
    ensures Since(a, from) != []
  {
    if i > 0 { SinceIsInhabited(a[1..], from, i - 1); }
  }

  class RunnerMetricsStore {
    const maxAge: int
    var data: map<string, seq<Point>>
    ghost var history: map<string, seq<Point>>
    /** The latest clock reading. */
    ghost var clock: int

    ghost function Bucket(runner: string): seq<Point>
      reads this
    {
      if runner in data then data[runner] else []
    }

    /** Every point ever appended for the runner, in order of arrival. */
    ghost function History(runner: string): seq<Point>
      reads this
    {
      if runner in history then history[runner] else []
    }

    ghost predicate Valid()
      reads this
    {
      forall runner :: Refines(Bucket(runner), History(runner), clock - maxAge)
    }

    constructor (maxAge: int, now: int)
      ensures Valid() && this.maxAge == maxAge && clock == now && history == map[]
    {
      this.maxAge := maxAge;
      data, history, clock := map[], map[], now;
    }

    /** Pop from the left while the oldest arrival is older than the cutoff. */
    method PruneBucket(runner: string, now: int)
      requires Valid() && clock <= now && runner in data
      modifies this`data, this`clock
      ensures Valid() && clock == now && runner in data
      ensures Bucket(runner) == [] || Bucket(runner)[0].ts >= now - maxAge
      ensures forall r | r != runner :: Bucket(r) == old(Bucket(r))
    {
      hide Refines;
      var cutoff := now - maxAge;
      AllOlderCutoff(cutoff);
      var bucket := data[runner];
      assert bucket == Bucket(runner);
      while bucket != [] && bucket[0].ts < cutoff
        invariant data == old(data) && Refines(bucket, old(History(runner)), cutoff)
        decreases |bucket|
      {
        PopLeft(bucket, History(runner), cutoff);
        bucket := bucket[1..];
      }
      data := data[runner := bucket];
      clock := now;
      assert forall r :: History(r) == old(History(r));
      assert forall r | r != runner :: Bucket(r) == old(Bucket(r));
    }

    lemma AllOlderCutoff(cutoff: int)
      requires Valid() && clock - maxAge <= cutoff
      ensures forall r :: Refines(Bucket(r), History(r), cutoff)
    {
      forall r ensures Refines(Bucket(r), History(r), cutoff) {
        OlderCutoff(Bucket(r), History(r), clock - maxAge, cutoff);
      }
    }

    method Append(runner: string, point: Point, now: int)
      requires Valid() && clock <= now
      modifies this
      ensures Valid() && clock == now
      ensures history == old(history)[runner := old(History(runner)) + [point]]
    {
      hide Refines;
      var bucket := if runner in data then data[runner] else [];
      PushRight(bucket, History(runner), point, clock - maxAge);
      history := history[runner := History(runner) + [point]];
      data := data[runner := bucket + [point]];
      forall r ensures Refines(Bucket(r), History(r), clock - maxAge) {
        if r != runner {
          assert old(Refines(Bucket(r), History(r), clock - maxAge));
          assert Bucket(r) == old(Bucket(r)) && History(r) == old(History(r));
        }
      }
      PruneBucket(runner, now);
    }

    /** The last point to arrive, as long as some point ever appended is young enough. */
    method GetLatest(runner: string, now: int) returns (latest: Option<Point>)
      requires Valid() && clock <= now
      modifies this`data, this`clock
      ensures Valid() && old(clock) <= clock <= now
      ensures latest == LatestIn(History(runner), now - maxAge)
      ensures latest.None? <==> forall i | 0 <= i < |History(runner)| :: History(runner)[i].ts < now - maxAge
      ensures latest.Some? ==> History(runner) != [] && latest.value == History(runner)[|History(runner)| - 1]
    {
      hide Refines, LatestIn;
      LatestMeans(History(runner), now - maxAge);
      AllOlderCutoff(now - maxAge);
      if runner !in data || data[runner] == [] {
        LatestOf([], History(runner), now - maxAge);
        return None;
      }
      PruneBucket(runner, now);
      var bucket := data[runner];
      assert bucket == Bucket(runner);
      LatestOf(bucket, History(runner), now - maxAge);
      latest := LastOf(bucket);
    }

    /** `pruned` and `now` are the two clock readings of one call. */
    method GetSeries(runner: string, window: int, pruned: int, now: int) returns (series: seq<Point>)
      requires Valid() && clock <= pruned <= now
      modifies this`data, this`clock
      ensures Valid() && old(clock) <= clock <= now
      ensures window <= maxAge ==> series == Since(History(runner), now - window)
      ensures series == Since(Bucket(runner), now - window)
    {
      if runner !in data || data[runner] == [] {
        OlderCutoff([], History(runner), clock - maxAge, now - maxAge);
        RefinementIfShort([], History(runner), now, window, maxAge);
        return [];
      }
      PruneBucket(runner, pruned);
      OlderCutoff(Bucket(runner), History(runner), pruned - maxAge, now - maxAge);
      RefinementIfShort(Bucket(runner), History(runner), now, window, maxAge);
      series := Since(data[runner], now - window);
    }
  }

  lemma OlderCutoff(bucket: seq<Point>, history: seq<Point>, a: int, b: int)
    requires Refines(bucket, history, a) && a <= b
    ensures Refines(bucket, history, b)
  {
  }

  lemma LatestOf(bucket: seq<Point>, history: seq<Point>, cutoff: int)
    requires Refines(bucket, history, cutoff) && (bucket == [] || bucket[0].ts >= cutoff)
    ensures LastOf(bucket) == LatestIn(history, cutoff)
  {
    if bucket == [] {
      assert history[..|history|] == history;
    } else {
      assert bucket[0] == history[|history| - |bucket|];
    }
  }

  lemma LatestMeans(history: seq<Point>, cutoff: int)
    ensures var latest := LatestIn(history, cutoff);
            && (latest.None? <==> forall i | 0 <= i < |history| :: history[i].ts < cutoff)
            && (latest.Some? ==> history != [] && latest.value == history[|history| - 1])
  {
  }

  /** A series picks, in order of arrival, each point of the window once, and no other. */
  lemma {:induction false} SeriesIsASubsequence(points: seq<Point>, cutoff: int) returns (at: seq<nat>)
    ensures |at| == |Since(points, cutoff)|
    ensures forall i | 0 <= i < |at| :: at[i] < |points| && Since(points, cutoff)[i] == points[at[i]]
    ensures forall i, k | 0 <= i < k < |at| :: at[i] < at[k]
    ensures forall n: nat | n < |points| :: n in at <==> points[n].ts >= cutoff
    decreases |points|
  {
    if points == [] {
      at := [];
    } else {
      var n := |points| - 1;
      SinceConcat(points[..n], [points[n]], cutoff);
      assert points == points[..n] + [points[n]];
      SinceOfOne(points[n], cutoff);
      var front := SeriesIsASubsequence(points[..n], cutoff);
      at := front + if points[n].ts >= cutoff then [n] else [];
      assert forall m: nat | m < n :: points[..n][m] == points[m] && (m in at <==> m in front);
    }
  }

  lemma SinceOfOne(point: Point, cutoff: int)
    ensures Since([point], cutoff) == if point.ts >= cutoff then [point] else []
  {
    assert [point][1..] == [];
  }

  lemma PopLeft(bucket: seq<Point>, history: seq<Point>, cutoff: int)
    requires Refines(bucket, history, cutoff) && bucket != [] && bucket[0].ts < cutoff
    ensures Refines(bucket[1..], history, cutoff)
  {
    var n := |history| - |bucket|;
    assert history[n] == bucket[0] && history[..n + 1] == history[..n] + [history[n]];
    assert bucket[1..] == history[n + 1..];
  }

  lemma PushRight(bucket: seq<Point>, history: seq<Point>, point: Point, cutoff: int)
    requires Refines(bucket, history, cutoff)
    ensures Refines(bucket + [point], history + [point], cutoff)
  {
    var n := |history| - |bucket|;
    assert (history + [point])[..n] == history[..n] && (history + [point])[n..] == history[n..] + [point];
  }

  lemma RefinementIfShort(bucket: seq<Point>, history: seq<Point>, now: int, window: int, maxAge: int)
    requires Refines(bucket, history, now - maxAge)
    ensures window <= maxAge ==> Since(bucket, now - window) == Since(history, now - window)
  {
    if window <= maxAge { RefinementAnswersWindows(bucket, history, now - maxAge, now - window); }
  }
}
