/**
`BaseScraper.fetch`: the circuit breaker around a bounded retry loop in which every request first
takes a token from the rate limiter.

The portal, the clock and the page parser are inputs: `Portal` says how each request would be
answered, at which times the calls of one fetch happen, and what the portal's own `_build_url` and
`_parse` do.
*/
module Scraper {
  import opened Wrappers
  import CB = CircuitBreaker
  import RL = RateLimiter

  /** HttpError covers transport failures and error statuses; only these are retried. */
  datatype Response<Page> = Page(page: Page) | HttpError | OtherError

  datatype Portal<!Page, !Listing> = Portal(
    urlBuilds: bool,
    respond: nat -> Response<Page>,
    parse: Page -> Option<seq<Listing>>,
    readings: nat -> RL.Reading,
    askedAt: real,
    failedAt: real)

  /** ParseError stands for whatever `_parse` raises: it is not a ScraperError. */
  datatype Fetched<Listing> = Listings(listings: seq<Listing>) | CircuitOpenError | ScraperError | ParseError

  /** The number of requests that the retry loop makes when n of them have failed with HttpError. */
  function Tries<Page>(respond: nat -> Response<Page>, maxAttempts: int, n: nat): (total: nat)
    ensures n < total <= (if n < maxAttempts then maxAttempts else n + 1)
    ensures forall k :: n <= k < total - 1 ==> respond(k).HttpError?
    ensures respond(total - 1).HttpError? ==> maxAttempts <= total
    decreases maxAttempts - n
  {
    if respond(n).HttpError? && n + 1 < maxAttempts then Tries(respond, maxAttempts, n + 1) else n + 1
  }

  function TimesOf(readings: nat -> RL.Reading, n: nat): seq<RL.Reading> {
    seq(n, i requires 0 <= i => readings(i))
  }

  function Outcome<Page, Listing>(portal: Portal<Page, Listing>, last: Response<Page>): Fetched<Listing> {
    match last
    case Page(page) => (match portal.parse(page)
                        case Some(listings) => Listings(listings)
                        case None => ParseError)
    case _ => ScraperError
  }

  class BaseScraper {
    const limiter: RL.TokenBucketRateLimiter
    const breaker: CB.CircuitBreaker
    const maxAttempts: int

    constructor (limiter: RL.TokenBucketRateLimiter, breaker: CB.CircuitBreaker, maxAttempts: int)
      ensures this.limiter == limiter && this.breaker == breaker && this.maxAttempts == maxAttempts
    {
      this.limiter := limiter;
      this.breaker := breaker;
      this.maxAttempts := maxAttempts;
    }

    method FetchOnce<Page, Listing>(portal: Portal<Page, Listing>, n: nat) returns (response: Response<Page>)
      requires limiter.Valid()
      modifies limiter
      ensures limiter.Valid() && limiter.View() == RL.Acquired(old(limiter.View()), portal.readings(n))
      ensures response == portal.respond(n)
    {
      var _ := limiter.Acquire(portal.readings(n));
      response := portal.respond(n);
    }

    method Get<Page, Listing>(portal: Portal<Page, Listing>) returns (response: Response<Page>, requests: nat)
      requires limiter.Valid()
      modifies limiter
      ensures requests == Tries(portal.respond, maxAttempts, 0)
      ensures response == portal.respond(requests - 1)
      ensures limiter.Valid()
      ensures limiter.View() == RL.After(old(limiter.View()), TimesOf(portal.readings, requests))
    {
      ghost var b := limiter.View();
      assert TimesOf(portal.readings, 1)[..0] == [];
      response := FetchOnce(portal, 0);
      requests := 1;
      while response.HttpError? && requests < maxAttempts
        invariant 1 <= requests && response == portal.respond(requests - 1)
        invariant Tries(portal.respond, maxAttempts, requests - 1) == Tries(portal.respond, maxAttempts, 0)
        invariant limiter.Valid()
        invariant limiter.View() == RL.After(b, TimesOf(portal.readings, requests))
        decreases maxAttempts - requests
      {
        assert TimesOf(portal.readings, requests + 1)[..requests] == TimesOf(portal.readings, requests);
        response := FetchOnce(portal, requests);
        requests := requests + 1;
      }
    }

    method Fetch<Page, Listing>(portal: Portal<Page, Listing>)
      returns (result: Fetched<Listing>, requests: nat)
      requires limiter.Valid()
      modifies limiter, breaker
      ensures limiter.Valid()
      ensures limiter.View() == RL.After(old(limiter.View()), TimesOf(portal.readings, requests))
      // A paused portal gets no request at all.
      ensures !CB.Allows(old(breaker.View()), portal.askedAt) ==>
                && requests == 0 && result == CircuitOpenError
                && breaker.View() == CB.Read(old(breaker.View()), portal.askedAt)
      // Otherwise the retries decide, and exactly one outcome is recorded.
      ensures CB.Allows(old(breaker.View()), portal.askedAt) ==>
                var admitted := CB.Read(old(breaker.View()), portal.askedAt);
                && requests == (if portal.urlBuilds then Tries(portal.respond, maxAttempts, 0) else 0)
                && result == (if requests == 0 then ScraperError
                              else Outcome(portal, portal.respond(requests - 1)))
                && breaker.View() == (if result == ScraperError then CB.Failed(admitted, portal.failedAt)
                                      else CB.Succeeded(admitted))
    {
      assert TimesOf(portal.readings, 0) == [];
      requests := 0;
      var allowed := breaker.Allow(portal.askedAt);
      if !allowed {
        return CircuitOpenError, 0;
      }
      var response: Response<Page> := OtherError;
      if portal.urlBuilds {
        response, requests := Get(portal);
      }
      if !response.Page? {
        breaker.RecordFailure(portal.failedAt);
        return ScraperError, requests;
      }
      breaker.RecordSuccess();
      var parsed := portal.parse(response.page);
      result := if parsed.Some? then Listings(parsed.value) else ParseError;
    }
  }

  // ----- Concurrent fetches on a portal that keeps failing

  function FailuresIn(calls: seq<CB.Call>): nat {
    if calls == [] then 0
    else FailuresIn(calls[..|calls| - 1]) + if calls[|calls| - 1].Failure? then 1 else 0
  }

  /**
  The calls of fetches that all fail, at most `c` of them under way at a time, those that asked before
  the first of these calls included: whatever was admitted has failed since, but for `c`.
  */
  ghost predicate AtMostUnderWay(b: CB.Breaker, calls: seq<CB.Call>, c: nat) {
    && (forall i :: 0 <= i < |calls| ==> !calls[i].Success?)
    && forall n | 0 <= n <= |calls| ::
         CB.AdmittedIn(b, calls[..n]) <= FailuresIn(calls[..n]) + c
  }

  lemma {:induction false} HistoryContinues(start: CB.Breaker, past: seq<CB.Call>, calls: seq<CB.Call>)
    ensures CB.After(start, past + calls) == CB.After(CB.After(start, past), calls)
  {
    if calls == [] {
      assert past + calls == past;
    } else {
      assert (past + calls)[..|past + calls| - 1] == past + calls[..|calls| - 1];
      HistoryContinues(start, past, calls[..|calls| - 1]);
    }
  }

  lemma EarlierCalls(past: seq<CB.Call>, calls: seq<CB.Call>, n: nat, now: real)
    requires n < |calls| && !calls[n].Success? && CB.NoLaterThan(past + calls, now)
    ensures CB.NoLaterThan(past + calls[..n], calls[n].at)
  {
    var all, some := past + calls, past + calls[..n];
    assert all[|past| + n] == calls[n];
    assert forall i :: 0 <= i < |some| ==> some[i] == all[i];
  }

  /** Without a success, the failures on record are those of the past and those of the calls. */
  lemma {:induction false} FailuresPileUp(past: seq<CB.Call>, calls: seq<CB.Call>)
    requires forall i :: 0 <= i < |calls| ==> !calls[i].Success?
    ensures |CB.FailuresSinceSuccess(past + calls)| == |CB.FailuresSinceSuccess(past)| + FailuresIn(calls)
  {
    if calls == [] {
      assert past + calls == past;
    } else {
      assert (past + calls)[..|past + calls| - 1] == past + calls[..|calls| - 1];
      FailuresPileUp(past, calls[..|calls| - 1]);
    }
  }

  /** The last failure on record is one of the calls', as soon as there is one. */
  lemma {:induction false} LastFailureIsRecent(past: seq<CB.Call>, calls: seq<CB.Call>, since: real)
    requires forall i :: 0 <= i < |calls| ==> !calls[i].Success? && since <= calls[i].at
    requires FailuresIn(calls) > 0
    ensures var recent := CB.FailuresSinceSuccess(past + calls); |recent| > 0 && since <= recent[|recent| - 1]
  {
    var earlier := calls[..|calls| - 1];
    assert (past + calls)[..|past + calls| - 1] == past + earlier;
    if !calls[|calls| - 1].Failure? {
      LastFailureIsRecent(past, earlier, since);
    }
  }

  /** Once `threshold` failures are reported within a cooldown, whoever asks then is refused. */
  lemma EnoughFailuresPause(threshold: int, cooldown: real, past: seq<CB.Call>, calls: seq<CB.Call>, n: nat)
    requires n < |calls| && calls[n].Look? && 1 <= threshold <= FailuresIn(calls[..n]) && 0.0 < cooldown
    requires (forall i :: 0 <= i < |calls| ==> !calls[i].Success?)
    requires CB.NoLaterThan(past + calls, calls[|calls| - 1].at)
    requires calls[|calls| - 1].at - calls[0].at < cooldown
    ensures !CB.Allows(CB.After(CB.After(CB.Fresh(threshold, cooldown), past), calls[..n]), calls[n].at)
  {
    hide CB.FailuresSinceSuccess, CB.After, CB.Allows, FailuresIn;
    HistoryContinues(CB.Fresh(threshold, cooldown), past, calls[..n]);
    EarlierCalls(past, calls, n, calls[|calls| - 1].at);
    FailuresPileUp(past, calls[..n]);
    CallsAreWithin(past, calls);
    hide CB.NoLaterThan;
    LastFailureIsRecent(past, calls[..n], calls[0].at);
    CB.BreakerRefinesHistory(threshold, cooldown, past + calls[..n], calls[n].at);
  }

  lemma CallsAreWithin(past: seq<CB.Call>, calls: seq<CB.Call>)
    requires calls != [] && (forall i :: 0 <= i < |calls| ==> !calls[i].Success?)
    requires CB.NoLaterThan(past + calls, calls[|calls| - 1].at)
    ensures forall i :: 0 <= i < |calls| ==> calls[0].at <= calls[i].at <= calls[|calls| - 1].at
  {
    var all := past + calls;
    assert forall i :: 0 <= i < |calls| ==> all[|past| + i] == calls[i];
  }

  /**
  A dead portal is left alone: whatever happened before, fetches that all fail, with at most `c` under
  way at a time and all within less than a cooldown, are admitted at most `threshold + c - 1` times,
  however many are attempted.  One after another, that is the threshold.  Each admitted one makes at
  most `maxAttempts` requests (`BaseScraper.Fetch`).
  */
  lemma {:induction false} DeadPortalIsLeftAlone(
    threshold: int, cooldown: real, past: seq<CB.Call>, calls: seq<CB.Call>, c: nat, n: nat)
    requires 1 <= threshold && 0.0 < cooldown && 1 <= c && n <= |calls|
    requires AtMostUnderWay(CB.After(CB.Fresh(threshold, cooldown), past), calls, c)
    requires calls != [] ==>
               && CB.NoLaterThan(past + calls, calls[|calls| - 1].at)
               && calls[|calls| - 1].at - calls[0].at < cooldown
    ensures CB.AdmittedIn(CB.After(CB.Fresh(threshold, cooldown), past), calls[..n]) <= threshold + c - 1
  {
    hide CB.After, CB.Allows, CB.NoLaterThan;
    var b := CB.After(CB.Fresh(threshold, cooldown), past);
    if n == 0 {
      assert calls[..0] == [];
    } else {
      DeadPortalIsLeftAlone(threshold, cooldown, past, calls, c, n - 1);
      assert calls[..n][..n - 1] == calls[..n - 1];
      if calls[n - 1].Look? && threshold <= FailuresIn(calls[..n - 1]) {
        EnoughFailuresPause(threshold, cooldown, past, calls, n - 1);
      }
    }
  }
}
