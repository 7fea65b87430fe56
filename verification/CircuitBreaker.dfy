/**
The circuit breaker of one portal.  Clock readings are inputs of the calls that take them.
*/
module CircuitBreaker {
  import opened Wrappers

  datatype CircuitState = CLOSED | OPEN | HALF_OPEN

  datatype Breaker = Breaker(
    threshold: int, cooldown: real, state: CircuitState, failures: nat, openedAt: Option<real>)

  function Fresh(threshold: int, cooldown: real): Breaker {
    Breaker(threshold, cooldown, CLOSED, 0, None)
  }

  /** `_state_locked`: reading the state can change it. */
  function Read(b: Breaker, now: real): Breaker {
    if b.state == OPEN && b.openedAt.Some? && now - b.openedAt.value >= b.cooldown
    then b.(state := HALF_OPEN)
    else b
  }

  predicate Allows(b: Breaker, now: real) {
    Read(b, now).state != OPEN
  }

  function Succeeded(b: Breaker): Breaker {
    b.(failures := 0, state := CLOSED, openedAt := None)
  }

  function Failed(b: Breaker, now: real): Breaker {
    var counted := b.(failures := b.failures + 1);
    if counted.failures >= b.threshold then counted.(state := OPEN, openedAt := Some(now)) else counted
  }

  class CircuitBreaker {
    const threshold: int
    const cooldown: real
    var state: CircuitState
    var failures: nat
    var openedAt: Option<real>

    ghost function View(): Breaker
      reads this
    {
      Breaker(threshold, cooldown, state, failures, openedAt)
    }

    constructor Configured(threshold: int, cooldown: real)
      ensures View() == Fresh(threshold, cooldown)
    {
      this.threshold := threshold;
      this.cooldown := cooldown;
      state, failures, openedAt := CLOSED, 0, None;
    }

    /** The source's constructor: a threshold below 1 or a cooldown that is not positive is a ValueError. */
    static method Create(threshold: int, cooldown: real) returns (breaker: Option<CircuitBreaker>)
      ensures breaker.Some? <==> 1 <= threshold && 0.0 < cooldown
      ensures breaker.Some? ==> fresh(breaker.value) && breaker.value.View() == Fresh(threshold, cooldown)
    {
      if threshold < 1 || cooldown <= 0.0 {
        return None;
      }
      var made := new CircuitBreaker.Configured(threshold, cooldown);
      breaker := Some(made);
    }

    method StateLocked(now: real) returns (current: CircuitState)
      modifies this
      ensures View() == Read(old(View()), now) && current == View().state
    {
      if state == OPEN && openedAt.Some? && now - openedAt.value >= cooldown {
        state := HALF_OPEN;
      }
      current := state;
    }

    method Allow(now: real) returns (allowed: bool)
      modifies this
      ensures View() == Read(old(View()), now) && allowed == Allows(old(View()), now)
    {
      var current := StateLocked(now);
      allowed := current != OPEN;
    }

    method RecordSuccess()
      modifies this
      ensures View() == Succeeded(old(View()))
    {
      failures := 0;
      state := CLOSED;
      openedAt := None;
    }

    method RecordFailure(now: real)
      modifies this
      ensures View() == Failed(old(View()), now)
    {
      failures := failures + 1;
      if failures >= threshold {
        state := OPEN;
        openedAt := Some(now);
      }
    }
  }

  // ----- The breaker against the history of what was recorded

  datatype Call = Look(at: real) | Success | Failure(at: real)

  function Step(b: Breaker, c: Call): Breaker {
    match c
    case Look(at) => Read(b, at)
    case Success => Succeeded(b)
    case Failure(at) => Failed(b, at)
  }

  function After(b: Breaker, calls: seq<Call>): Breaker {
    if calls == [] then b else Step(After(b, calls[..|calls| - 1]), calls[|calls| - 1])
  }

  /** The failures recorded since the last success, with their times. */
  function FailuresSinceSuccess(calls: seq<Call>): seq<real> {
    if calls == [] then []
    else
      var earlier := FailuresSinceSuccess(calls[..|calls| - 1]);
      match calls[|calls| - 1]
      case Look(_) => earlier
      case Success => []
      case Failure(at) => earlier + [at]
  }

  /** The clock never runs backwards, and no call was made later than `now`. */
  ghost predicate NoLaterThan(calls: seq<Call>, now: real) {
    && (forall i :: 0 <= i < |calls| && !calls[i].Success? ==> calls[i].at <= now)
    && (forall i, j :: 0 <= i < j < |calls| && !calls[i].Success? && !calls[j].Success? ==>
          calls[i].at <= calls[j].at)
  }

  /** The pause that the documentation promises, in terms of the recorded outcomes alone. */
  predicate Paused(threshold: int, cooldown: real, calls: seq<Call>, now: real) {
    var recent := FailuresSinceSuccess(calls);
    |recent| > 0 && |recent| >= threshold && now - recent[|recent| - 1] < cooldown
  }

  lemma {:induction false} StateFollowsHistory(threshold: int, cooldown: real, calls: seq<Call>, now: real)
    requires 1 <= threshold && 0.0 < cooldown && NoLaterThan(calls, now)
    ensures var b, recent := After(Fresh(threshold, cooldown), calls), FailuresSinceSuccess(calls);
            && b.threshold == threshold && b.cooldown == cooldown && b.failures == |recent|
            && (b.state == CLOSED <==> |recent| < threshold)
            && (b.openedAt == if |recent| < threshold then None else Some(recent[|recent| - 1]))
            && (b.state == HALF_OPEN ==> now - recent[|recent| - 1] >= cooldown)
  {
    if calls == [] {
    } else {
      StateFollowsHistory(threshold, cooldown, calls[..|calls| - 1], now);
      match calls[|calls| - 1]
      case Look(at) =>
        StateFollowsHistory(threshold, cooldown, calls[..|calls| - 1], at);
      case Success =>
      case Failure(at) =>
    }
  }

  /**
  `allow` answers False exactly when the failures since the last success have reached the threshold
  and the last of them is less than a cooldown ago: after any trace of calls, whatever reads of the
  state happened in between.
  */
  lemma BreakerRefinesHistory(threshold: int, cooldown: real, calls: seq<Call>, now: real)
    requires 1 <= threshold && 0.0 < cooldown && NoLaterThan(calls, now)
    ensures Allows(After(Fresh(threshold, cooldown), calls), now) <==> !Paused(threshold, cooldown, calls, now)
  {
    StateFollowsHistory(threshold, cooldown, calls, now);
  }

  /** Readings of the state leave no trace in any later answer. */
  lemma LooksAreInvisible(threshold: int, cooldown: real, calls: seq<Call>, at: real, now: real)
    requires 1 <= threshold && 0.0 < cooldown && NoLaterThan(calls, at) && at <= now
    ensures Allows(After(Fresh(threshold, cooldown), calls + [Look(at)]), now)
            <==> Allows(After(Fresh(threshold, cooldown), calls), now)
  {
    var longer := calls + [Look(at)];
    assert longer[..|longer| - 1] == calls;
    BreakerRefinesHistory(threshold, cooldown, calls, now);
    BreakerRefinesHistory(threshold, cooldown, longer, now);
  }

  /** How many of a sequence of calls ask for admission and get it. */
  function AdmittedIn(b: Breaker, calls: seq<Call>): nat {
    if calls == [] then 0
    else
      var earlier, last := calls[..|calls| - 1], calls[|calls| - 1];
      AdmittedIn(b, earlier) + if last.Look? && Allows(After(b, earlier), last.at) then 1 else 0
  }

  /** How many of them are made at or after a time. */
  function LooksFrom(looks: seq<Call>, time: real): nat {
    if looks == [] then 0
    else
      var last := looks[|looks| - 1];
      LooksFrom(looks[..|looks| - 1], time) + if last.Look? && time <= last.at then 1 else 0
  }

  ghost predicate Unanswered(looks: seq<Call>) {
    && (forall i :: 0 <= i < |looks| ==> looks[i].Look?)
    && (forall i, j :: 0 <= i < j < |looks| ==> looks[i].at <= looks[j].at)
  }

  /** An open breaker without new outcomes is half open from the first look after the cooldown on. */
  lemma {:induction false} HalfOpenStays(b: Breaker, looks: seq<Call>)
    requires b.state == OPEN && b.openedAt.Some? && Unanswered(looks)
    ensures After(b, looks)
            == if LooksFrom(looks, b.openedAt.value + b.cooldown) == 0 then b else b.(state := HALF_OPEN)
  {
    if looks == [] {
    } else {
      HalfOpenStays(b, looks[..|looks| - 1]);
    }
  }

  lemma {:induction false} NoneFromMeansEarlier(looks: seq<Call>, time: real)
    requires Unanswered(looks) && LooksFrom(looks, time) > 0
    ensures time <= looks[|looks| - 1].at
  {
    var n := |looks| - 1;
    if LooksFrom(looks[..n], time) > 0 {
      NoneFromMeansEarlier(looks[..n], time);
    }
  }

  /**
  Until an outcome is reported, the half-open breaker admits every attempt made after the cooldown, and
  none made before its end.
  */
  lemma {:induction false} HalfOpenAdmitsEveryone(b: Breaker, looks: seq<Call>)
    requires b.state == OPEN && b.openedAt.Some? && Unanswered(looks)
    ensures AdmittedIn(b, looks) == LooksFrom(looks, b.openedAt.value + b.cooldown)
  {
    if looks == [] {
    } else {
      var earlier := looks[..|looks| - 1];
      HalfOpenAdmitsEveryone(b, earlier);
      HalfOpenStays(b, earlier);
      if LooksFrom(earlier, b.openedAt.value + b.cooldown) > 0 {
        NoneFromMeansEarlier(earlier, b.openedAt.value + b.cooldown);
      }
    }
  }

  /** So a single trial is what the portal gets exactly when no second attempt is made before the outcome. */
  lemma SingleTrialIff(b: Breaker, looks: seq<Call>)
    requires b.state == OPEN && b.openedAt.Some? && Unanswered(looks)
    ensures AdmittedIn(b, looks) <= 1 <==> LooksFrom(looks, b.openedAt.value + b.cooldown) <= 1
  {
    HalfOpenAdmitsEveryone(b, looks);
  }

  /** Two workers that ask an open breaker at the end of its cooldown are both let through. */
  lemma TwoTrials(b: Breaker)
    requires b.state == OPEN && b.openedAt.Some?
    ensures var end := b.openedAt.value + b.cooldown; AdmittedIn(b, [Look(end), Look(end)]) == 2
  {
    var end := b.openedAt.value + b.cooldown;
    HalfOpenAdmitsEveryone(b, [Look(end), Look(end)]);
    assert [Look(end), Look(end)][..1] == [Look(end)] && [Look(end)][..0] == [];
    assert LooksFrom([Look(end)], end) == 1;
  }
}
