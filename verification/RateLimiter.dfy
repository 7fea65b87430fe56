/**
The token bucket that paces every portal request and every outgoing message.

Clock readings are inputs: each call of `Acquire` is given the reading taken by its first refill and
the reading that the refill after the sleep would take.  Times are reals.
*/
module RateLimiter {
  import opened Wrappers

  datatype Reading = Reading(first: real, afterSleep: real)

  /** The value of a limiter object: its configuration and its two mutable fields. */
  datatype Bucket = Bucket(rate: real, capacity: real, tokens: real, lastRefill: real)

  function Refilled(b: Bucket, now: real): Bucket {
    var grown := b.tokens + (now - b.lastRefill) * b.rate;
    b.(lastRefill := now, tokens := if b.capacity <= grown then b.capacity else grown)
  }

  function Wait(b: Bucket): real
    requires b.rate > 0.0
  {
    (1.0 - b.tokens) / b.rate
  }

  /** One `acquire` call, start to end. */
  function Acquired(b: Bucket, r: Reading): Bucket {
    var once := Refilled(b, r.first);
    var ready := if once.tokens < 1.0 then Refilled(once, r.afterSleep) else once;
    ready.(tokens := ready.tokens - 1.0)
  }

  /** Python's `round` to the nearest integer, ties to even. */
  function Round(x: real): int {
    var below := x.Floor;
    var gap := x - below as real;
    if gap < 0.5 || (gap == 0.5 && below % 2 == 0) then below else below + 1
  }

  function DefaultCapacity(rate: real, burst: Option<int>): real {
    match burst
    case Some(n) => n as real
    case None => if Round(rate) < 1 then 1.0 else Round(rate) as real
  }

  class TokenBucketRateLimiter {
    const rate: real
    const capacity: real
    var tokens: real
    var lastRefill: real

    ghost predicate Valid()
      reads this
    {
      rate > 0.0
    }

    ghost function View(): Bucket
      reads this
    {
      Bucket(rate, capacity, tokens, lastRefill)
    }

    constructor Configured(rate: real, burst: Option<int>, now: real)
      requires rate > 0.0
      ensures Valid() && View() == FreshBucket(rate, DefaultCapacity(rate, burst), now)
    {
      this.rate := rate;
      this.capacity := DefaultCapacity(rate, burst);
      this.tokens := DefaultCapacity(rate, burst);
      this.lastRefill := now;
    }

    /** The source's constructor: a rate that is not positive is a ValueError. */
    static method Create(rate: real, burst: Option<int>, now: real)
      returns (limiter: Option<TokenBucketRateLimiter>)
      ensures limiter.Some? <==> rate > 0.0
      ensures limiter.Some? ==>
                && fresh(limiter.value) && limiter.value.Valid()
                && limiter.value.View() == FreshBucket(rate, DefaultCapacity(rate, burst), now)
    {
      if rate <= 0.0 {
        return None;
      }
      var made := new TokenBucketRateLimiter.Configured(rate, burst, now);
      limiter := Some(made);
    }

    method Refill(now: real)
      modifies this
      ensures View() == Refilled(old(View()), now)
    {
      var elapsed := now - lastRefill;
      lastRefill := now;
      tokens := if capacity <= tokens + elapsed * rate then capacity else tokens + elapsed * rate;
    }

    method Acquire(reading: Reading) returns (slept: real)
      requires Valid()
      modifies this
      ensures Valid() && View() == Acquired(old(View()), reading)
      ensures var once := Refilled(old(View()), reading.first);
              slept == if once.tokens < 1.0 then Wait(once) else 0.0
    {
      Refill(reading.first);
      slept := 0.0;
      if tokens < 1.0 {
        slept := (1.0 - tokens) / rate;
        Refill(reading.afterSleep);
      }
      tokens := tokens - 1.0;
    }
  }

  function FreshBucket(rate: real, capacity: real, now: real): Bucket {
    Bucket(rate, capacity, capacity, now)
  }

  // ----- Whole traces of calls

  /** The clock never runs backwards and a sleep lasts at least as long as was asked for. */
  ghost predicate Timely(b: Bucket, r: Reading)
    requires b.rate > 0.0
  {
    && b.lastRefill <= r.first
    && (Refilled(b, r.first).tokens < 1.0 ==> r.first + Wait(Refilled(b, r.first)) <= r.afterSleep)
  }

  function After(b: Bucket, trace: seq<Reading>): Bucket {
    if trace == [] then b else Acquired(After(b, trace[..|trace| - 1]), trace[|trace| - 1])
  }

  ghost predicate TimelyTrace(b: Bucket, trace: seq<Reading>)
    requires b.rate > 0.0
  {
    forall k {:trigger trace[k]} :: 0 <= k < |trace| ==>
      After(b, trace[..k]).rate > 0.0 && Timely(After(b, trace[..k]), trace[k])
  }

  /** When the k-th call was let through: the time of the refill whose token it took. */
  function GrantTime(b: Bucket, trace: seq<Reading>, k: nat): real
    requires k < |trace|
  {
    After(b, trace[..k + 1]).lastRefill
  }

  ghost predicate Bounded(b: Bucket) {
    b.rate > 0.0 && 1.0 <= b.capacity && 0.0 <= b.tokens <= b.capacity
  }

  /**
  Tokens measured against the line along which time earns them: refilling never raises this level,
  and each call takes exactly one token off it.
  */
  function Level(b: Bucket): real {
    b.tokens - b.rate * b.lastRefill
  }

  lemma RefillStep(b: Bucket, now: real)
    requires b.rate > 0.0 && b.lastRefill <= now && b.tokens <= b.capacity
    ensures var later := Refilled(b, now);
            && later == b.(lastRefill := now, tokens := later.tokens)
            && b.tokens <= later.tokens <= b.capacity && Level(later) <= Level(b)
  {
    assert 0.0 <= (now - b.lastRefill) * b.rate;
  }

  lemma SleepEarnsAToken(b: Bucket, later: real)
    requires b.rate > 0.0 && b.tokens < 1.0 <= b.capacity && b.lastRefill + Wait(b) <= later
    ensures b.lastRefill <= later && 1.0 <= Refilled(b, later).tokens
  {
    assert 0.0 < Wait(b);
    var elapsed := later - b.lastRefill;
    assert Wait(b) * b.rate == 1.0 - b.tokens;
    assert Wait(b) * b.rate <= elapsed * b.rate;
  }

  /** One call keeps 0 <= tokens <= capacity, and takes at least one token off the level. */
  lemma AcquireStep(b: Bucket, r: Reading)
    requires Bounded(b) && Timely(b, r)
    ensures var after := Acquired(b, r);
            && Bounded(after) && after.rate == b.rate && after.capacity == b.capacity
            && b.lastRefill <= after.lastRefill
            && after.tokens <= b.capacity - 1.0
            && Level(after) + 1.0 <= Level(b)
  {
    hide Refilled, Wait;
    var once := Refilled(b, r.first);
    RefillStep(b, r.first);
    if once.tokens < 1.0 {
      SleepEarnsAToken(once, r.afterSleep);
      RefillStep(once, r.afterSleep);
    }
  }

  /** On every trace the token count stays between 0 and the capacity. */
  lemma {:induction false} TokensStayBounded(b: Bucket, trace: seq<Reading>)
    requires Bounded(b) && TimelyTrace(b, trace)
    ensures var end := After(b, trace);
            Bounded(end) && end.rate == b.rate && end.capacity == b.capacity && b.lastRefill <= end.lastRefill
  {
    if trace == [] {
    } else {
      var n := |trace| - 1;
      TimelyPrefix(b, trace, n);
      TokensStayBounded(b, trace[..n]);
      AcquireStep(After(b, trace[..n]), trace[n]);
    }
  }

  lemma TimelyPrefix(b: Bucket, trace: seq<Reading>, n: nat)
    requires b.rate > 0.0 && n <= |trace| && TimelyTrace(b, trace)
    ensures TimelyTrace(b, trace[..n])
  {
    forall k | 0 <= k < n
      ensures After(b, trace[..n][..k]).rate > 0.0 && Timely(After(b, trace[..n][..k]), trace[..n][k])
    {
      assert trace[..n][..k] == trace[..k];
      assert trace[..n][k] == trace[k];
    }
  }

  /** The arithmetic of a window: two levels n grants apart, and the time between them. */
  lemma LevelsApart(b: Bucket, earlier: Bucket, later: Bucket, n: nat, width: real)
    requires Bounded(b) && earlier.rate == later.rate == b.rate
    requires earlier.tokens <= b.capacity - 1.0 && 0.0 <= later.tokens
    requires Level(later) + n as real <= Level(earlier) && later.lastRefill - earlier.lastRefill <= width
    ensures (n + 1) as real <= b.capacity + b.rate * width
  {
    var rate, t0, t1 := b.rate, earlier.lastRefill, later.lastRefill;
    assert rate * (t1 - t0) == rate * t1 - rate * t0;
    assert rate * (t1 - t0) <= rate * width;
  }

  /** Every grant from i to j is paid for out of the level at grant i. */
  lemma {:induction false} Telescope(b: Bucket, trace: seq<Reading>, i: nat, j: nat)
    requires Bounded(b) && TimelyTrace(b, trace) && i <= j < |trace|
    ensures Level(After(b, trace[..j + 1])) + (j - i) as real <= Level(After(b, trace[..i + 1]))
    ensures After(b, trace[..i + 1]).tokens <= b.capacity - 1.0
    decreases j
  {
    TimelyPrefix(b, trace, j);
    TokensStayBounded(b, trace[..j]);
    AcquireStep(After(b, trace[..j]), trace[j]);
    assert trace[..j + 1][..j] == trace[..j];
    if i < j {
      Telescope(b, trace, i, j - 1);
    }
  }

  /** If grants i and j lie in a window, the grants from i to j are no more than it can pay for. */
  lemma GrantsWithin(b: Bucket, trace: seq<Reading>, i: nat, j: nat, width: real)
    requires Bounded(b) && TimelyTrace(b, trace) && i <= j < |trace|
    requires GrantTime(b, trace, j) - GrantTime(b, trace, i) <= width
    ensures (j - i + 1) as real <= b.capacity + b.rate * width
  {
    Telescope(b, trace, i, j);
    TimelyPrefix(b, trace, i + 1);
    TokensStayBounded(b, trace[..i + 1]);
    TimelyPrefix(b, trace, j + 1);
    TokensStayBounded(b, trace[..j + 1]);
    LevelsApart(b, After(b, trace[..i + 1]), After(b, trace[..j + 1]), j - i, width);
  }

  /** The calls of a trace that are let through in the closed window [from, from + width]. */
  ghost function GrantsIn(b: Bucket, trace: seq<Reading>, from: real, width: real): set<nat> {
    set k: nat | k < |trace| && from <= GrantTime(b, trace, k) <= from + width
  }

  lemma {:induction false} SetWithinRange(s: set<nat>, lo: nat, hi: nat)
    requires lo <= hi && forall k :: k in s ==> lo <= k < hi
    ensures |s| <= hi - lo
    decreases hi
  {
    if lo == hi {
      assert s == {};
    } else {
      SetWithinRange(s - {hi - 1}, lo, hi - 1);
      if hi - 1 in s {
        assert s == (s - {hi - 1}) + {hi - 1};
      } else {
        assert s == s - {hi - 1};
      }
    }
  }

  /**
  The rate bound: in any window of any trace, wherever it starts, at most capacity + rate * width
  calls are let through.
  */
  lemma WindowBound(b: Bucket, trace: seq<Reading>, from: real, width: real)
    requires Bounded(b) && TimelyTrace(b, trace) && 0.0 <= width
    ensures |GrantsIn(b, trace, from, width)| as real <= b.capacity + b.rate * width
  {
    var grants := GrantsIn(b, trace, from, width);
    if grants == {} {
      assert 0.0 <= b.rate * width;
    } else {
      var i := Least(grants);
      var j := Greatest(grants);
      SetWithinRange(grants, i, j + 1);
      GrantsWithin(b, trace, i, j, width);
    }
  }

  lemma {:induction false} Least(s: set<nat>) returns (m: nat)
    requires s != {}
    ensures m in s && forall k :: k in s ==> m <= k
    decreases |s|
  {
    m :| m in s;
    assert forall k :: k in s ==> k == m || k in s - {m};
    if s - {m} != {} {
      var rest := Least(s - {m});
      m := if rest < m then rest else m;
    }
  }

  lemma {:induction false} Greatest(s: set<nat>) returns (m: nat)
    requires s != {}
    ensures m in s && forall k :: k in s ==> k <= m
    decreases |s|
  {
    m :| m in s;
    assert forall k :: k in s ==> k == m || k in s - {m};
    if s - {m} != {} {
      var rest := Greatest(s - {m});
      m := if m < rest then rest else m;
    }
  }

  /**
  The constructor accepts any burst.  Tokens can never go below zero exactly when the capacity is at
  least one token: with a smaller one, the first call already leaves a debt, however long it slept.
  */
  lemma NeverInDebtIffCapacityHoldsAToken(rate: real, capacity: real, start: real)
    requires rate > 0.0
    ensures 1.0 <= capacity <==>
            forall trace :: TimelyTrace(FreshBucket(rate, capacity, start), trace) ==>
              0.0 <= After(FreshBucket(rate, capacity, start), trace).tokens
  {
    var b := FreshBucket(rate, capacity, start);
    if 1.0 <= capacity {
      forall trace | TimelyTrace(b, trace)
        ensures 0.0 <= After(b, trace).tokens
      {
        TokensStayBounded(b, trace);
      }
    } else {
      var r := Reading(start, start + Wait(b));
      var once := Refilled(b, start);
      assert once == b;
      assert Wait(b) * rate == 1.0 - capacity;
      assert After(b, []) == b;
      assert [r][..0] == [];
      assert TimelyTrace(b, [r]);
      assert After(b, [r]).tokens == capacity - 1.0;
    }
  }

  /** A burst of zero: after one call and the sleep it asks for, the limiter owes a whole token. */
  lemma NoBurstGoesIntoDebt(start: real)
    ensures var b, r := FreshBucket(1.0, DefaultCapacity(1.0, Some(0)), start), Reading(start, start + 1.0);
            TimelyTrace(b, [r]) && After(b, [r]).tokens == -1.0
  {
    var b, r := FreshBucket(1.0, DefaultCapacity(1.0, Some(0)), start), Reading(start, start + 1.0);
    assert Refilled(b, start) == b && Wait(b) == 1.0;
    assert After(b, []) == b && [r][..0] == [];
  }

  /** Without an explicit burst the capacity is the rounded rate, and never less than one token. */
  lemma DefaultCapacityHoldsAToken(rate: real, burst: Option<int>)
    ensures 1.0 <= DefaultCapacity(rate, burst) <==> burst.None? || 1 <= burst.value
    ensures burst.None? && 1.0 <= rate ==> rate - 0.5 <= DefaultCapacity(rate, burst) <= rate + 0.5
    ensures burst.Some? ==> DefaultCapacity(rate, burst) == burst.value as real
  {
  }

  /** Rounding goes to a nearest integer, and to the even one of two. */
  lemma RoundIsNearest(x: real)
    ensures -0.5 <= Round(x) as real - x <= 0.5
    ensures (Round(x) as real - x == 0.5 || Round(x) as real - x == -0.5) ==> Round(x) % 2 == 0
  {
  }

  // ----- No call waits longer than the rate demands

  /** The tokens that time earns. */
  function Earned(b: Bucket, from: real, to: real): real {
    b.rate * (to - from)
  }

  lemma EarnedAdds(b: Bucket, t0: real, t1: real, t2: real)
    ensures Earned(b, t0, t1) + Earned(b, t1, t2) == Earned(b, t0, t2)
    ensures Earned(b, t0, t1) == b.rate * t1 - b.rate * t0
    ensures Earned(b, t0, t0) == 0.0
  {
  }

  lemma EarnedIsPositive(b: Bucket, t0: real, t1: real)
    requires 0.0 < b.rate && t0 <= t1
    ensures 0.0 <= Earned(b, t0, t1)
  {
  }

  lemma RefilledByEarned(b: Bucket, now: real)
    ensures Refilled(b, now).lastRefill == now
    ensures var grown := b.tokens + Earned(b, b.lastRefill, now);
            Refilled(b, now).tokens == if b.capacity <= grown then b.capacity else grown
  {
  }

  /** A call leaves the bucket full but for its own token, or with all that was earned since, less the token. */
  lemma AcquireExact(b: Bucket, r: Reading)
    requires Bounded(b) && Timely(b, r)
    ensures var after := Acquired(b, r);
            || after.tokens == b.capacity - 1.0
            || after.tokens == b.tokens + Earned(b, b.lastRefill, after.lastRefill) - 1.0
  {
    hide Earned, Refilled;
    RefillStep(b, r.first);
    RefilledByEarned(b, r.first);
    var once := Refilled(b, r.first);
    if once.tokens < 1.0 {
      RefilledByEarned(once, r.afterSleep);
      EarnedAdds(b, b.lastRefill, r.first, r.afterSleep);
      SameEarned(b, once, r.first, r.afterSleep);
    }
  }

  lemma SameEarned(b: Bucket, c: Bucket, from: real, to: real)
    requires b.rate == c.rate
    ensures Earned(b, from, to) == Earned(c, from, to)
  {
  }

  /** What the last call of a trace does. */
  lemma LastCall(b: Bucket, trace: seq<Reading>)
    requires Bounded(b) && TimelyTrace(b, trace) && trace != []
    ensures var n := |trace| - 1;
            var before, after := After(b, trace[..n]), After(b, trace);
            && TimelyTrace(b, trace[..n])
            && (|| after.tokens == b.capacity - 1.0
                || after.tokens == before.tokens + Earned(b, before.lastRefill, after.lastRefill) - 1.0)
  {
    hide Acquired, Refilled, Earned;
    var n := |trace| - 1;
    TimelyPrefix(b, trace, n);
    TokensStayBounded(b, trace[..n]);
    var before := After(b, trace[..n]);
    AcquireExact(before, trace[n]);
    SameEarned(b, before, before.lastRefill, After(b, trace).lastRefill);
  }

  lemma FirstCallIsFull(b: Bucket, trace: seq<Reading>)
    requires Bounded(b) && b.tokens == b.capacity && TimelyTrace(b, trace) && |trace| == 1
    ensures After(b, trace).tokens == b.capacity - 1.0
  {
    hide Earned, Refilled;
    assert trace[..0] == [] && After(b, trace[..0]) == b;
    EarnedIsPositive(b, b.lastRefill, trace[0].first);
    RefilledByEarned(b, trace[0].first);
  }

  /** What a window that starts with grant i and ends with the last one has left. */
  ghost predicate IsTight(b: Bucket, trace: seq<Reading>, i: nat)
    requires i < |trace|
  {
    After(b, trace).tokens
    == b.capacity - (|trace| - i) as real + Earned(b, GrantTime(b, trace, i), After(b, trace).lastRefill)
  }

  lemma {:induction false} SomeWindowIsTight(b: Bucket, trace: seq<Reading>) returns (i: nat)
    requires Bounded(b) && b.tokens == b.capacity && TimelyTrace(b, trace) && trace != []
    ensures i < |trace| && IsTight(b, trace, i)
  {
    hide Earned, TimelyTrace, After;
    var n := |trace| - 1;
    var last := After(b, trace).lastRefill;
    assert trace[..n + 1] == trace;
    LastCall(b, trace);
    i := n;
    if After(b, trace).tokens == b.capacity - 1.0 {
      EarnedAdds(b, last, last, last);
    } else if n == 0 {
      FirstCallIsFull(b, trace);
    } else {
      i := SomeWindowIsTight(b, trace[..n]);
      assert trace[..n][..i + 1] == trace[..i + 1];
      EarnedAdds(b, GrantTime(b, trace, i), After(b, trace[..n]).lastRefill, last);
    }
  }

  /** Every window limits the tokens that are left. */
  lemma WindowsLimitTokens(b: Bucket, trace: seq<Reading>, i: nat)
    requires Bounded(b) && TimelyTrace(b, trace) && i < |trace|
    ensures After(b, trace).tokens
            <= b.capacity - (|trace| - i) as real + Earned(b, GrantTime(b, trace, i), After(b, trace).lastRefill)
  {
    hide Earned, TimelyTrace, After, Bounded;
    var j, first := |trace| - 1, GrantTime(b, trace, i);
    assert trace[..j + 1] == trace;
    Telescope(b, trace, i, j);
    SameRates(b, trace, i);
    hide Level;
    LevelByEarned(b, After(b, trace[..i + 1]), After(b, trace));
  }

  lemma SameRates(b: Bucket, trace: seq<Reading>, i: nat)
    requires Bounded(b) && TimelyTrace(b, trace) && i < |trace|
    ensures After(b, trace).rate == After(b, trace[..i + 1]).rate == b.rate > 0.0
  {
    hide TimelyTrace, After;
    TimelyPrefix(b, trace, i + 1);
    TokensStayBounded(b, trace[..i + 1]);
    TokensStayBounded(b, trace);
  }

  lemma LevelByEarned(b: Bucket, earlier: Bucket, later: Bucket)
    requires earlier.rate == later.rate == b.rate
    ensures Level(later) - Level(earlier)
            == later.tokens - earlier.tokens - Earned(b, earlier.lastRefill, later.lastRefill)
  {
    EarnedAdds(b, earlier.lastRefill, later.lastRefill, later.lastRefill);
  }

  /** Letting a call through at a time would overfill the window that starts with grant i. */
  ghost predicate Overfills(b: Bucket, trace: seq<Reading>, i: nat, at: real)
    requires i < |trace|
  {
    b.capacity + Earned(b, GrantTime(b, trace, i), at) < (|trace| - i + 1) as real
  }

  /**
  The limiter holds a call back only when it has to: a call waits if and only if letting it through at
  once would make some window hold more than capacity + rate * width calls.
  */
  lemma WaitsIffAWindowIsFull(b: Bucket, trace: seq<Reading>, r: Reading)
    requires Bounded(b) && b.tokens == b.capacity && TimelyTrace(b, trace) && After(b, trace).lastRefill <= r.first
    ensures Refilled(After(b, trace), r.first).tokens < 1.0
            <==> exists i: nat :: i < |trace| && Overfills(b, trace, i, r.first)
  {
    hide TimelyTrace, Earned, Refilled, After;
    var now := After(b, trace);
    RefilledNow(b, trace, r.first);
    if trace == [] {
      NoCallYet(b);
      EarnedIsPositive(b, now.lastRefill, r.first);
    } else {
      var k := SomeWindowIsTight(b, trace);
      EarnedAdds(b, GrantTime(b, trace, k), now.lastRefill, r.first);
      if Refilled(now, r.first).tokens < 1.0 {
        assert Overfills(b, trace, k, r.first);
      }
      if i: nat :| i < |trace| && Overfills(b, trace, i, r.first) {
        WindowsLimitTokens(b, trace, i);
        EarnedAdds(b, GrantTime(b, trace, i), now.lastRefill, r.first);
      }
    }
  }

  lemma NoCallYet(b: Bucket)
    ensures After(b, []) == b
  {
  }

  lemma RefilledNow(b: Bucket, trace: seq<Reading>, at: real)
    requires Bounded(b) && TimelyTrace(b, trace)
    ensures var now := After(b, trace);
            var grown := now.tokens + Earned(b, now.lastRefill, at);
            Refilled(now, at).tokens == if b.capacity <= grown then b.capacity else grown
  {
    hide TimelyTrace, Earned, Refilled, After;
    var now := After(b, trace);
    TokensStayBounded(b, trace);
    RefilledByEarned(now, at);
    SameEarned(b, now, now.lastRefill, at);
  }

  /** And it waits no longer than it has to: after the wait there is one token, and not more. */
  lemma WaitIsExact(b: Bucket)
    requires b.rate > 0.0 && b.tokens < 1.0 <= b.capacity
    ensures Refilled(b, b.lastRefill + Wait(b)).tokens == 1.0
  {
    assert Wait(b) * b.rate == 1.0 - b.tokens;
  }
}
