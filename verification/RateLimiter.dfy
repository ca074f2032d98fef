/**
 The token bucket, over real numbers.  The environment supplies the clock reading
 `now` on entry and how much longer than asked the sleep took (`late`).
 */
module RateLimiter {
  import opened Options

  datatype Limits = Limits(rate: real, capacity: real)

  datatype Level = Level(tokens: real, at: real)

  datatype Call = Call(now: real, late: real)

  function Min(a: real, b: real): real {
    if a <= b then a else b
  }

  function Max(a: real, b: real): real {
    if a >= b then a else b
  }

  /** Tokens earned between two readings. */
  function Earned(rate: real, from: real, to: real): real {
    (to - from) * rate
  }

  function Refill(lim: Limits, b: Level, now: real): Level {
    Level(Min(lim.capacity, b.tokens + Earned(lim.rate, b.at, now)), now)
  }

  function Wait(lim: Limits, b: Level): real
    requires lim.rate > 0.0
  {
    if b.tokens < 1.0 then (1.0 - b.tokens) / lim.rate else 0.0
  }

  /** The bucket after one serialized acquire; `at` is the moment of the grant. */
  function Granted(lim: Limits, b: Level, c: Call): Level
    requires lim.rate > 0.0
  {
    var first := Refill(lim, b, c.now);
    var ready :=
      if first.tokens < 1.0 then Refill(lim, first, c.now + Wait(lim, first) + c.late) else first;
    ready.(tokens := ready.tokens - 1.0)
  }

  /** Serialized by the lock: each call reads the clock after the previous grant. */
  function After(lim: Limits, b: Level, calls: seq<Call>): Level
    requires lim.rate > 0.0
    decreases |calls|
  {
    if calls == [] then b else Granted(lim, After(lim, b, calls[..|calls| - 1]), calls[|calls| - 1])
  }

  ghost predicate Monotone(lim: Limits, b: Level, calls: seq<Call>)
    requires lim.rate > 0.0
    decreases |calls|
  {
    calls == [] ||
    var front, c := calls[..|calls| - 1], calls[|calls| - 1];
    Monotone(lim, b, front) && After(lim, b, front).at <= c.now && c.late >= 0.0
  }

  /** When the k-th call was granted. */
  function GrantTime(lim: Limits, b: Level, calls: seq<Call>, k: nat): real
    requires lim.rate > 0.0 && k < |calls|
  {
    After(lim, b, calls[..k + 1]).at
  }

  // ---------------------------------------------------------------- one acquire

  lemma EarnedGrows(rate: real, from: real, to: real)
    requires rate > 0.0 && from <= to
    ensures Earned(rate, from, to) >= 0.0
  {
  }

  lemma SleepEarnsATokenExactly(lim: Limits, b: Level)
    requires lim.rate > 0.0 && b.tokens < 1.0
    ensures Wait(lim, b) > 0.0 && b.tokens + Earned(lim.rate, b.at, b.at + Wait(lim, b)) == 1.0
  {
  }

  /** What one acquire does to the level, whatever the capacity. */
  lemma GrantIsBounded(lim: Limits, b: Level, c: Call)
    requires lim.rate > 0.0 && b.tokens <= lim.capacity && b.at <= c.now && c.late >= 0.0
    ensures var t := Granted(lim, b, c);
            && c.now <= t.at
            && Min(0.0, lim.capacity - 1.0) <= t.tokens <= lim.capacity - 1.0
            && t.tokens <= b.tokens - 1.0 + Earned(lim.rate, b.at, t.at)
  {
    hide Earned, Wait;
    var first := Refill(lim, b, c.now);
    EarnedGrows(lim.rate, b.at, c.now);
    if first.tokens < 1.0 {
      SleepEarnsATokenExactly(lim, first);
      var asked := c.now + Wait(lim, first);
      EarnedGrows(lim.rate, asked, asked + c.late);
      Telescope(c.now, asked, asked + c.late, lim.rate);
      Telescope(b.at, c.now, asked + c.late, lim.rate);
    }
  }

  /**
   What one acquire leaves exactly: all that was earned up to the grant, cut at the
   capacity, less one token.  A bucket that has a whole token by then does not sleep;
   one that has not sleeps for just as long as the rest of the token takes.
   */
  lemma GrantIsExact(lim: Limits, b: Level, c: Call)
    requires lim.rate > 0.0 && b.tokens <= lim.capacity && b.at <= c.now && c.late >= 0.0
    ensures var t := Granted(lim, b, c);
            var here := Min(lim.capacity, b.tokens + Earned(lim.rate, b.at, c.now));
            && t.tokens == Min(lim.capacity, b.tokens + Earned(lim.rate, b.at, t.at)) - 1.0
            && (here >= 1.0 ==> t.at == c.now)
            && (here < 1.0 ==> t.at >= c.now + c.late && here + Earned(lim.rate, c.now, t.at - c.late) == 1.0)
  {
    hide Earned, Wait;
    var first := Refill(lim, b, c.now);
    EarnedGrows(lim.rate, b.at, c.now);
    if first.tokens < 1.0 {
      SleepEarnsATokenExactly(lim, first);
      var asked := c.now + Wait(lim, first);
      EarnedGrows(lim.rate, c.now, asked + c.late);
      Telescope(b.at, c.now, asked + c.late, lim.rate);
    }
  }

  // ---------------------------------------------------------------- every sequence of acquires

  lemma {:induction false} LevelStaysInRange(lim: Limits, b: Level, calls: seq<Call>)
    requires lim.rate > 0.0 && b.tokens <= lim.capacity && Monotone(lim, b, calls)
    ensures After(lim, b, calls).tokens <= lim.capacity
    ensures calls != [] ==> Min(0.0, lim.capacity - 1.0) <= After(lim, b, calls).tokens <= lim.capacity - 1.0
    decreases |calls|
  {
    if calls != [] {
      LevelStaysInRange(lim, b, calls[..|calls| - 1]);
      GrantIsBounded(lim, After(lim, b, calls[..|calls| - 1]), calls[|calls| - 1]);
    }
  }

  lemma {:induction false} MonotonePrefix(lim: Limits, b: Level, calls: seq<Call>, k: nat)
    requires lim.rate > 0.0 && k <= |calls| && Monotone(lim, b, calls)
    ensures Monotone(lim, b, calls[..k])
    decreases |calls|
  {
    if k < |calls| {
      MonotonePrefix(lim, b, calls[..|calls| - 1], k);
      assert calls[..|calls| - 1][..k] == calls[..k];
    } else {
      assert calls[..k] == calls;
    }
  }

  /** Each grant spends one token of what the elapsed time earned. */
  lemma {:induction false} SpentIsEarned(lim: Limits, b: Level, calls: seq<Call>, i: nat, j: nat)
    requires lim.rate > 0.0 && b.tokens <= lim.capacity && Monotone(lim, b, calls) && i <= j < |calls|
    ensures After(lim, b, calls[..j + 1]).tokens <=
            lim.capacity - (j - i + 1) as real
              + Earned(lim.rate, GrantTime(lim, b, calls, i), GrantTime(lim, b, calls, j))
    decreases j
  {
    hide Granted, Earned, Refill, Monotone, After;
    MonotonePrefix(lim, b, calls, j + 1);
    LevelStaysInRange(lim, b, calls[..j + 1]);
    if i < j {
      SpentIsEarned(lim, b, calls, i, j - 1);
      LastGrant(lim, b, calls, j);
      MonotonePrefix(lim, b, calls, j);
      LevelStaysInRange(lim, b, calls[..j]);
      GrantIsBounded(lim, After(lim, b, calls[..j]), calls[j]);
      Telescope(GrantTime(lim, b, calls, i), GrantTime(lim, b, calls, j - 1), GrantTime(lim, b, calls, j), lim.rate);
    } else {
      Telescope(GrantTime(lim, b, calls, i), GrantTime(lim, b, calls, i), GrantTime(lim, b, calls, i), lim.rate);
    }
  }

  lemma Telescope(a: real, b: real, c: real, rate: real)
    ensures Earned(rate, a, b) + Earned(rate, b, c) == Earned(rate, a, c)
    ensures Earned(rate, a, a) == 0.0
  {
  }

  lemma LastGrant(lim: Limits, b: Level, calls: seq<Call>, j: nat)
    requires lim.rate > 0.0 && Monotone(lim, b, calls) && j < |calls|
    ensures After(lim, b, calls[..j + 1]) == Granted(lim, After(lim, b, calls[..j]), calls[j])
    ensures After(lim, b, calls[..j]).at <= calls[j].now && calls[j].late >= 0.0
  {
    MonotonePrefix(lim, b, calls, j + 1);
    assert calls[..j + 1][..j] == calls[..j] && calls[..j + 1][j] == calls[j];
  }

  /**
   Main result: in any window of grants i..j, no more tokens are handed out than
   the bucket holds plus what the window's length earns.
   */
  lemma RateIsBounded(lim: Limits, b: Level, calls: seq<Call>, i: nat, j: nat)
    requires lim.rate > 0.0 && b.tokens <= lim.capacity && Monotone(lim, b, calls) && i <= j < |calls|
    ensures (j - i + 1) as real <=
            Max(lim.capacity, 1.0) + Earned(lim.rate, GrantTime(lim, b, calls, i), GrantTime(lim, b, calls, j))
  {
    SpentIsEarned(lim, b, calls, i, j);
    MonotonePrefix(lim, b, calls, j + 1);
    LevelStaysInRange(lim, b, calls[..j + 1]);
  }

  /** The bound is met: a full bucket of whole capacity n grants n calls at one instant. */
  lemma {:induction false} BurstIsReached(rate: real, n: nat, k: nat, at: real)
    requires rate > 0.0 && k <= n
    ensures var lim := Limits(rate, n as real);
            var calls := seq(k, i => Call(at, 0.0));
            After(lim, Level(lim.capacity, at), calls) == Level((n - k) as real, at)
    decreases k
  {
    hide Earned, Wait;
    if k > 0 {
      Telescope(at, at, at, rate);
      BurstIsReached(rate, n, k - 1, at);
      assert seq(k, i => Call(at, 0.0))[..k - 1] == seq(k - 1, i => Call(at, 0.0));
    }
  }

  /** What a bucket has at hand when its owner comes at `now`. */
  function AtHand(lim: Limits, b: Level, now: real): real {
    Min(lim.capacity, b.tokens + Earned(lim.rate, b.at, now))
  }

  /**
   Main result, from below: after any calls, a bucket left idle hands out at once, with
   no sleep, as many tokens as it has at hand by then, which is all it earned up to its
   capacity.
   */
  lemma {:induction false} IdleBucketBursts(lim: Limits, b: Level, calls: seq<Call>, now: real, k: nat)
    requires lim.rate > 0.0 && b.tokens <= lim.capacity && Monotone(lim, b, calls)
    requires After(lim, b, calls).at <= now && k as real <= AtHand(lim, After(lim, b, calls), now)
    ensures var more := calls + seq(k, i => Call(now, 0.0));
            && Monotone(lim, b, more)
            && (k > 0 ==> After(lim, b, more) == Level(AtHand(lim, After(lim, b, calls), now) - k as real, now))
            && (forall j | |calls| <= j < |more| :: GrantTime(lim, b, more, j) == now)
    decreases k
  {
    hide Earned, Wait, Granted, After, Monotone, GrantTime;
    if k == 0 {
      assert calls + seq(k, i => Call(now, 0.0)) == calls;
    } else {
      IdleBucketBursts(lim, b, calls, now, k - 1);
      var before := calls + seq(k - 1, i => Call(now, 0.0));
      var c := Call(now, 0.0);
      assert calls + seq(k, i => Call(now, 0.0)) == before + [c];
      NothingMore(calls, now, k);
      LevelStaysInRange(lim, b, calls);
      BurstLevel(lim, After(lim, b, calls), After(lim, b, before), now, k);
      LevelStaysInRange(lim, b, before);
      OneMoreCall(lim, b, before, c);
    }
  }

  lemma NothingMore(calls: seq<Call>, now: real, k: nat)
    requires k >= 1
    ensures k == 1 ==> calls + seq(k - 1, i => Call(now, 0.0)) == calls
  {
  }

  /** The k-th call of the burst finds a whole token and does not sleep. */
  lemma BurstLevel(lim: Limits, idle: Level, b: Level, now: real, k: nat)
    requires lim.rate > 0.0 && idle.tokens <= lim.capacity && idle.at <= now && k >= 1
    requires k as real <= AtHand(lim, idle, now)
    requires if k == 1 then b == idle else b == Level(AtHand(lim, idle, now) - (k - 1) as real, now)
    ensures b.at <= now && Granted(lim, b, Call(now, 0.0)) == Level(AtHand(lim, idle, now) - k as real, now)
  {
    hide Earned, Wait, Granted;
    Telescope(now, now, now, lim.rate);
    GrantIsExact(lim, b, Call(now, 0.0));
  }

  lemma OneMoreCall(lim: Limits, b: Level, calls: seq<Call>, c: Call)
    requires lim.rate > 0.0 && Monotone(lim, b, calls) && After(lim, b, calls).at <= c.now && c.late >= 0.0
    ensures var more := calls + [c];
            && Monotone(lim, b, more) && After(lim, b, more) == Granted(lim, After(lim, b, calls), c)
            && GrantTime(lim, b, more, |calls|) == After(lim, b, more).at
            && forall j: nat | j < |calls| :: GrantTime(lim, b, more, j) == GrantTime(lim, b, calls, j)
  {
    hide Granted;
    var more := calls + [c];
    assert more[..|more| - 1] == calls && more[..|more|] == more;
    forall j: nat | j < |calls| ensures GrantTime(lim, b, more, j) == GrantTime(lim, b, calls, j) {
      assert more[..j + 1] == calls[..j + 1];
    }
  }

  /** No caller is made to sleep longer than the time one token below the floor takes. */
  lemma WaitIsShort(lim: Limits, b: Level, calls: seq<Call>, now: real)
    requires lim.rate > 0.0 && b.tokens == lim.capacity && Monotone(lim, b, calls)
    requires After(lim, b, calls).at <= now
    ensures var first := Refill(lim, After(lim, b, calls), now);
            && 0.0 <= Wait(lim, first)
            && Earned(lim.rate, now, now + Wait(lim, first)) <= 1.0 - Min(0.0, lim.capacity - 1.0)
  {
    hide Earned, Wait, Granted;
    LevelStaysInRange(lim, b, calls);
    var last := After(lim, b, calls);
    EarnedGrows(lim.rate, last.at, now);
    WaitOf(lim, Refill(lim, last, now));
  }

  lemma WaitOf(lim: Limits, b: Level)
    requires lim.rate > 0.0
    ensures 0.0 <= Wait(lim, b)
    ensures Earned(lim.rate, b.at, b.at + Wait(lim, b)) == if b.tokens < 1.0 then 1.0 - b.tokens else 0.0
  {
    if b.tokens < 1.0 { SleepEarnsATokenExactly(lim, b); }
  }

  // ---------------------------------------------------------------- as written

  class AsyncTokenBucket {
    const rate: real
    const capacity: real
    var tokens: real
    var lastUpdate: real

    ghost predicate Valid()
      reads this
    {
      rate > 0.0 && tokens <= capacity
    }

    ghost function View(): Level
      reads this
    {
      Level(tokens, lastUpdate)
    }

    constructor (rate: real, capacity: Option<real>, now: real)
      requires rate > 0.0
      ensures Valid() && this.rate == rate && this.capacity == capacity.GetOr(rate)
      ensures View() == Level(capacity.GetOr(rate), now)
    {
      this.rate := rate;
      this.capacity := capacity.GetOr(rate);
      tokens := capacity.GetOr(rate);
      lastUpdate := now;
    }

    method RefillTo(now: real)
      modifies this
      ensures View() == Refill(Limits(rate, capacity), old(View()), now)
    {
      var elapsed := now - lastUpdate;
      tokens := Min(capacity, tokens + elapsed * rate);
      lastUpdate := now;
    }

    method Acquire(call: Call) returns (wait: real)
      requires Valid() && lastUpdate <= call.now && call.late >= 0.0
      modifies this
      ensures Valid() && View() == Granted(Limits(rate, capacity), old(View()), call)
      ensures tokens == Min(capacity, old(tokens) + Earned(rate, old(lastUpdate), lastUpdate)) - 1.0
      ensures Min(capacity, old(tokens) + Earned(rate, old(lastUpdate), call.now)) >= 1.0 ==>
                lastUpdate == call.now && wait == 0.0
      ensures wait == Wait(Limits(rate, capacity), Refill(Limits(rate, capacity), old(View()), call.now))
    {
      hide Earned;
      GrantIsBounded(Limits(rate, capacity), View(), call);
      GrantIsExact(Limits(rate, capacity), View(), call);
      RefillTo(call.now);
      if tokens < 1.0 {
        wait := (1.0 - tokens) / rate;
        RefillTo(call.now + wait + call.late);
      } else {
        wait := 0.0;
      }
      tokens := tokens - 1.0;
    }
  }

  /** The constructor's ValueError is None. */
  method NewBucket(rate: real, capacity: Option<real>, now: real) returns (bucket: Option<AsyncTokenBucket>)
    ensures bucket.Some? <==> rate > 0.0
    ensures bucket.Some? ==>
              var b := bucket.value;
              && fresh(b) && b.Valid() && b.rate == rate && b.capacity == capacity.GetOr(rate)
              && b.View() == Level(b.capacity, now)
  {
    if rate <= 0.0 {
      return None;
    }
    var b := new AsyncTokenBucket(rate, capacity, now);
    bucket := Some(b);
  }
}
