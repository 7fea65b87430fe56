/**
The other half of the cache's promise: a query is fetched again as soon as its last fetch is older than
the time to live, and until then its alerts are evaluated on what that fetch found.
*/
module Freshness {
  import opened Wrappers
  import opened Tables
  import opened AlertCycle
  import opened Pacing

  /** Every cache row comes from a fetch in the log. */
  ghost predicate CachedIsFetched(db: Db) {
    forall signature: string :: signature in db.cache ==> LastFetch(db.executions, signature).Some?
  }

  /** The log and the cache belong together: what every committed worker keeps. */
  ghost predicate Coherent(env: Env, db: Db) {
    CacheIsLastFetch(env, db) && FetchesSpaced(env, db.executions) && CachedIsFetched(db)
  }

  /** The worker commits one more execution, and it is a successful fetch. */
  predicate Fetches(env: Env, db: Db, job: Job) {
    var after, n := Committed(env, db, job).executions, |db.executions|;
    |after| == n + 1 && after[..n] == db.executions && after[n].Succeeded?
  }

  /** The worker commits one more execution, and it is a failure to get an answer. */
  predicate FailsToFetch(env: Env, db: Db, job: Job) {
    var after, n := Committed(env, db, job).executions, |db.executions|;
    |after| == n + 1 && after[..n] == db.executions && after[n].Failed?
  }

  /** No committed fetch of the query started within the last `ttl` seconds. */
  ghost predicate IsStale(env: Env, executions: seq<Execution>, signature: string, now: Time) {
    forall e :: e in executions && e.Succeeded? && e.signature == signature ==> e.startedAt + env.ttl <= now
  }

  lemma {:induction false} LastFetchIsOne(executions: seq<Execution>, signature: string)
    ensures var last := LastFetch(executions, signature);
            && (last.Some? ==> exists e :: e in executions && e.Succeeded? && e.signature == signature
                                           && e.startedAt == last.value)
            && (last.None? ==> forall e :: e in executions && e.Succeeded? ==> e.signature != signature)
  {
    if executions == [] {
    } else {
      var n := |executions| - 1;
      LastFetchIsOne(executions[..n], signature);
      assert forall e :: e in executions <==> e in executions[..n] || e == executions[n];
    }
  }

  lemma StaleByLastFetch(env: Env, executions: seq<Execution>, signature: string, now: Time)
    requires 0 <= env.ttl && FetchesSpaced(env, executions)
    ensures var last := LastFetch(executions, signature);
            IsStale(env, executions, signature, now) <==> last.None? || last.value + env.ttl <= now
  {
    hide FetchesSpaced;
    LastFetchIsOne(executions, signature);
    forall e | e in executions && e.Succeeded? && e.signature == signature
      ensures LastFetch(executions, signature).Some? && e.startedAt <= LastFetch(executions, signature).value
    {
      var i :| 0 <= i < |executions| && executions[i] == e;
      LastFetchIsLatest(env, executions, i);
    }
  }

  /** The cache answers exactly while the last fetch is younger than the time to live. */
  lemma CacheMissesIffStale(env: Env, db: Db, signature: string, now: Time)
    requires 0 <= env.ttl && Coherent(env, db)
    ensures CacheGet(db, signature, now).None? <==> IsStale(env, db.executions, signature, now)
  {
    hide FetchesSpaced, IsStale;
    StaleByLastFetch(env, db.executions, signature, now);
    assert CacheRemembers(env, db, signature);
  }

  // ----- What one worker does

  lemma WorkerKeepsCachedFetched(env: Env, db: Db, job: Job)
    requires CachedIsFetched(db)
    ensures CachedIsFetched(Committed(env, db, job))
  {
    hide Committed;
    var trace := WorkerLeaves(env, db, job);
    var after, n := Committed(env, db, job), |db.executions|;
    if !trace.Quiet? {
      assert after.executions[..n] == db.executions;
    }
  }

  lemma WorkerKeepsCoherent(env: Env, db: Db, job: Job)
    requires 0 <= env.ttl && Coherent(env, db)
    ensures Coherent(env, Committed(env, db, job))
  {
    hide Committed, CacheIsLastFetch, FetchesSpaced, CachedIsFetched;
    WorkerKeepsSpacing(env, db, job);
    WorkerKeepsCachedFetched(env, db, job);
  }

  lemma CacheHitLogsNothing(env: Env, db: Db, job: Job)
    requires CacheGet(db, job.query.signature, job.now).Some?
    ensures Resolved(env, db, job, true) == Candidates(db, CacheGet(db, job.query.signature, job.now).value)
    ensures Committed(env, db, job).executions == db.executions && Committed(env, db, job).cache == db.cache
  {
    hide Loaded, AlertsHandled;
    if OneRun(env, db, job).Done? {
      var ids := CacheGet(db, job.query.signature, job.now).value;
      EvaluationKeepsLog(env, db, job.query.alerts, Loaded(db, ids), job.now);
    }
  }

  /** What a worker without a cache row leaves, if it does not crash. */
  lemma CacheMissLogs(env: Env, db: Db, job: Job)
    requires CacheGet(db, job.query.signature, job.now).None? && OneRun(env, db, job).Done?
    ensures job.fetched.ScraperError? ==>
              && Committed(env, db, job).executions
                 == db.executions
                    + [Failed(job.query.portal, job.query.signature, job.fetched.message, job.now)]
              && Committed(env, db, job).cache == db.cache
    ensures job.fetched.Listings? ==>
              var r, after := Resolved(env, db, job, true), Committed(env, db, job);
              && r.Candidates? && |after.executions| == |db.executions| + 1
              && after.executions[..|db.executions|] == db.executions
              && IsFetchOf(after.executions[|db.executions|], job)
              && after.cache.Keys == db.cache.Keys + {job.query.signature}
              && after.cache[job.query.signature].ids == r.ids
              && forall s :: s in db.cache && s != job.query.signature ==> after.cache[s] == db.cache[s]
  {
    hide Loaded, AlertsHandled, IngestedAll;
    var r := Resolved(env, db, job, true);
    if r.Candidates? {
      EvaluationKeepsLog(env, r.db, job.query.alerts, Loaded(r.db, r.ids), job.now);
      IngestingKeeps(env, job.query.portal, db, job.fetched.listings, job.seenAt, true);
    }
  }

  predicate IsFetchOf(e: Execution, job: Job) {
    e.Succeeded? && e.portal == job.query.portal && e.signature == job.query.signature && e.startedAt == job.now
  }

  /**
  A worker that does not crash asks the portal exactly when no committed fetch of its query started
  within the time to live: then an answer is committed as a fetch, and no answer as a failure.
  */
  lemma WorkerFetchesIffStale(env: Env, db: Db, job: Job)
    requires 0 <= env.ttl && Coherent(env, db) && OneRun(env, db, job).Done?
    ensures Fetches(env, db, job)
            <==> job.fetched.Listings? && IsStale(env, db.executions, job.query.signature, job.now)
    ensures FailsToFetch(env, db, job)
            <==> job.fetched.ScraperError? && IsStale(env, db.executions, job.query.signature, job.now)
    ensures Fetches(env, db, job) ==> IsFetchOf(Committed(env, db, job).executions[|db.executions|], job)
  {
    hide Committed, IsStale, Resolved, CacheGet, OneRun, Coherent;
    CacheMissesIffStale(env, db, job.query.signature, job.now);
    if CacheGet(db, job.query.signature, job.now).Some? {
      CacheHitLogsNothing(env, db, job);
    } else {
      CacheMissLogs(env, db, job);
    }
  }

  // ----- Over runs

  lemma {:induction false} RunsKeepCoherent(env: Env, db: Db, jobs: seq<Job>)
    requires 0 <= env.ttl && Coherent(env, db)
    ensures Coherent(env, CommittedAll(env, db, jobs))
  {
    hide Coherent, Committed;
    if jobs == [] {
    } else {
      var n := |jobs| - 1;
      RunsKeepCoherent(env, db, jobs[..n]);
      WorkerKeepsCoherent(env, CommittedAll(env, db, jobs[..n]), jobs[n]);
    }
  }

  /** The ids that the last committed fetch of a query found; before any, those of the row at the start. */
  function LastFound(env: Env, db: Db, jobs: seq<Job>, signature: string): Option<seq<PropertyId>> {
    if jobs == [] then if signature in db.cache then Some(db.cache[signature].ids) else None
    else
      var n := |jobs| - 1;
      var before := CommittedAll(env, db, jobs[..n]);
      if jobs[n].query.signature == signature && Fetches(env, before, jobs[n])
         && Resolved(env, before, jobs[n], true).Candidates?
      then Some(Resolved(env, before, jobs[n], true).ids)
      else LastFound(env, db, jobs[..n], signature)
  }

  lemma {:induction false} CacheHoldsLastFound(env: Env, db: Db, jobs: seq<Job>, signature: string)
    ensures var after := CommittedAll(env, db, jobs);
            LastFound(env, db, jobs, signature)
            == if signature in after.cache then Some(after.cache[signature].ids) else None
  {
    hide Committed, Resolved, OneRun, CacheGet;
    if jobs == [] {
    } else {
      var n := |jobs| - 1;
      CacheHoldsLastFound(env, db, jobs[..n], signature);
      var before := CommittedAll(env, db, jobs[..n]);
      WorkerCaches(env, before, jobs[n], signature);
    }
  }

  lemma WorkerCaches(env: Env, db: Db, job: Job, signature: string)
    ensures var after, r := Committed(env, db, job), Resolved(env, db, job, true);
            if job.query.signature == signature && Fetches(env, db, job) && r.Candidates?
            then signature in after.cache && after.cache[signature].ids == r.ids
            else (signature in after.cache <==> signature in db.cache)
                 && (signature in db.cache ==> after.cache[signature] == db.cache[signature])
  {
    hide Resolved, CacheGet;
    if OneRun(env, db, job).Done? {
      hide Committed, OneRun;
      if CacheGet(db, job.query.signature, job.now).Some? {
        CacheHitLogsNothing(env, db, job);
      } else {
        CacheMissLogs(env, db, job);
      }
    }
  }

  /**
  Over every sequence of workers, whatever their clocks show and whichever of them fail or crash: a
  worker whose portal answers, and that does not crash, commits a new fetch exactly when no committed
  fetch of its query started within the time to live; otherwise its candidates are what the last fetch
  found.
  */
  lemma FetchedAgainIffStale(env: Env, db: Db, jobs: seq<Job>, n: nat)
    requires 0 <= env.ttl && Coherent(env, db) && n < |jobs|
    requires OneRun(env, CommittedAll(env, db, jobs[..n]), jobs[n]).Done? && jobs[n].fetched.Listings?
    ensures var before, job := CommittedAll(env, db, jobs[..n]), jobs[n];
            && (Fetches(env, before, job) <==> IsStale(env, before.executions, job.query.signature, job.now))
            && (!Fetches(env, before, job) ==>
                  && LastFound(env, db, jobs[..n], job.query.signature).Some?
                  && Resolved(env, before, job, true)
                     == Candidates(before, LastFound(env, db, jobs[..n], job.query.signature).value))
  {
    hide Coherent, OneRun, Resolved, IsStale, Fetches, LastFound;
    var before, job := CommittedAll(env, db, jobs[..n]), jobs[n];
    RunsKeepCoherent(env, db, jobs[..n]);
    WorkerFetchesIffStale(env, before, job);
    CacheMissesIffStale(env, before, job.query.signature, job.now);
    CacheHoldsLastFound(env, db, jobs[..n], job.query.signature);
    if CacheGet(before, job.query.signature, job.now).Some? {
      CacheHitLogsNothing(env, before, job);
    }
  }

  /** An empty database is coherent. */
  lemma NothingFetchedIsCoherent(env: Env, db: Db)
    requires db.executions == [] && db.cache == map[]
    ensures Coherent(env, db)
  {
  }
}
