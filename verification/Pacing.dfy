/**
The planner tick, and the pace it keeps: no query is fetched again within the cache's time to live,
and no alert is evaluated again within its frequency.
*/
module Pacing {
  import opened Wrappers
  import opened Conditions
  import opened Alerts
  import opened Tables
  import opened AlertCycle
  import QueryPlan
  import Rules

  // ----- Fetches of one query

  /** When the last successful fetch of a query started. */
  function LastFetch(executions: seq<Execution>, signature: string): Option<Time> {
    if executions == [] then None
    else
      var last := executions[|executions| - 1];
      if last.Succeeded? && last.signature == signature then Some(last.startedAt)
      else LastFetch(executions[..|executions| - 1], signature)
  }

  /** The cache remembers the last fetch of every query. */
  ghost predicate CacheIsLastFetch(env: Env, db: Db) {
    forall signature: string :: CacheRemembers(env, db, signature)
  }

  predicate CacheRemembers(env: Env, db: Db, signature: string) {
    match LastFetch(db.executions, signature)
    case None => true
    case Some(at) => signature in db.cache && db.cache[signature].expiresAt == at + env.ttl
  }

  /** Successful fetches of one query start at least `ttl` apart. */
  ghost predicate FetchesSpaced(env: Env, executions: seq<Execution>) {
    forall i, j | 0 <= i < j < |executions| :: FarApart(env, executions[i], executions[j])
  }

  predicate FarApart(env: Env, earlier: Execution, later: Execution) {
    earlier.Succeeded? && later.Succeeded? && earlier.signature == later.signature ==>
      env.ttl <= later.startedAt - earlier.startedAt
  }

  lemma {:induction false} LastFetchIsLatest(env: Env, executions: seq<Execution>, i: nat)
    requires 0 <= env.ttl && FetchesSpaced(env, executions)
    requires i < |executions| && executions[i].Succeeded?
    ensures LastFetch(executions, executions[i].signature).Some?
    ensures executions[i].startedAt <= LastFetch(executions, executions[i].signature).value
  {
    var n := |executions| - 1;
    if executions[n].Succeeded? && executions[n].signature == executions[i].signature {
      if i < n {
        assert FarApart(env, executions[i], executions[n]);
      }
    } else {
      forall k, j | 0 <= k < j < n
        ensures FarApart(env, executions[..n][k], executions[..n][j])
      {
        assert FarApart(env, executions[k], executions[j]);
      }
      LastFetchIsLatest(env, executions[..n], i);
    }
  }

  /** A fetch that the cache let through comes at least `ttl` after the last one. */
  lemma FetchingKeepsSpacing(env: Env, db: Db, execution: Execution, after: Db)
    requires 0 <= env.ttl && CacheIsLastFetch(env, db) && FetchesSpaced(env, db.executions)
    requires execution.Succeeded? && CacheGet(db, execution.signature, execution.startedAt).None?
    requires after.executions == db.executions + [execution]
    requires after.cache.Keys == db.cache.Keys + {execution.signature}
    requires forall s :: s in db.cache && s != execution.signature ==> after.cache[s] == db.cache[s]
    requires after.cache[execution.signature].expiresAt == execution.startedAt + env.ttl
    ensures CacheIsLastFetch(env, after) && FetchesSpaced(env, after.executions)
  {
    var n := |db.executions|;
    assert after.executions[..n] == db.executions;
    forall i, j | 0 <= i < j <= n
      ensures FarApart(env, after.executions[i], after.executions[j])
    {
      if j < n {
        assert FarApart(env, db.executions[i], db.executions[j]);
      } else if db.executions[i].Succeeded? && db.executions[i].signature == execution.signature {
        LastFetchIsLatest(env, db.executions, i);
        assert CacheRemembers(env, db, execution.signature);
      }
    }
    forall signature: string
      ensures CacheRemembers(env, after, signature)
    {
      assert CacheRemembers(env, db, signature);
    }
  }

  /** What one worker does to the log and the cache. */
  datatype Trace = Quiet | FailedTo(message: string) | Refreshed(execution: Execution, row: CacheRow)

  ghost predicate Leaves(db: Db, after: Db, job: Job, ttl: int, trace: Trace) {
    match trace
    case Quiet => after.executions == db.executions && after.cache == db.cache
    case FailedTo(message) =>
      && after.executions == db.executions + [Failed(job.query.portal, job.query.signature, message, job.now)]
      && after.cache == db.cache
    case Refreshed(execution, row) =>
      && CacheGet(db, job.query.signature, job.now).None?
      && execution.Succeeded? && execution.signature == job.query.signature && execution.startedAt == job.now
      && after.executions == db.executions + [execution]
      && row.fetchedAt == job.now && row.expiresAt == job.now + ttl
      && after.cache == db.cache[job.query.signature := row]
  }

  lemma {:induction false} EvaluationKeepsLog(
    env: Env, db: Db, alerts: seq<SearchAlert>, candidates: seq<Rules.Property>, now: Time)
    requires AlertsHandled(env, db, alerts, candidates, now).Some?
    ensures AlertsHandled(env, db, alerts, candidates, now).value.executions == db.executions
    ensures AlertsHandled(env, db, alerts, candidates, now).value.cache == db.cache
  {
    hide Rules.Evaluate, MatchesStored;
    if alerts == [] {
    } else {
      var n := |alerts| - 1;
      EvaluationKeepsLog(env, db, alerts[..n], candidates, now);
      var middle := AlertsHandled(env, db, alerts[..n], candidates, now).value;
      var found := Rules.Evaluate(env.lib, env.reg, alerts[n].conditions, candidates);
      if found.Success? {
        MatchesKeepTheRest(middle, alerts[n], found.value, now);
      }
    }
  }

  lemma {:induction false} MatchesKeepTheRest(db: Db, alert: SearchAlert, ps: seq<Rules.Property>, now: Time)
    ensures var after := MatchesStored(db, alert, ps, now);
            after.executions == db.executions && after.cache == db.cache && after.alerts == db.alerts
  {
    hide EnabledFor;
    if ps == [] {
    } else {
      MatchesKeepTheRest(db, alert, ps[..|ps| - 1], now);
    }
  }

  lemma WorkerLeaves(env: Env, db: Db, job: Job) returns (trace: Trace)
    ensures Leaves(db, Committed(env, db, job), job, env.ttl, trace)
  {
    hide Loaded, AlertsHandled, IngestedAll;
    var r := Resolved(env, db, job, true);
    trace := Quiet;
    if r.Unavailable? {
      trace := FailedTo(r.message);
    } else if r.Candidates? && OneRun(env, db, job).Done? {
      EvaluationKeepsLog(env, r.db, job.query.alerts, Loaded(r.db, r.ids), job.now);
      if CacheGet(db, job.query.signature, job.now).None? {
        var raws := job.fetched.listings;
        IngestingKeeps(env, job.query.portal, db, raws, job.seenAt, true);
        trace := Refreshed(r.db.executions[|db.executions|], r.db.cache[job.query.signature]);
      }
    }
  }

  lemma WorkerKeepsSpacing(env: Env, db: Db, job: Job)
    requires 0 <= env.ttl && CacheIsLastFetch(env, db) && FetchesSpaced(env, db.executions)
    ensures var after := Committed(env, db, job);
            CacheIsLastFetch(env, after) && FetchesSpaced(env, after.executions)
  {
    hide Committed, LastFetch;
    var trace := WorkerLeaves(env, db, job);
    var after := Committed(env, db, job);
    match trace
    case Quiet =>
      assert forall signature :: CacheRemembers(env, db, signature) ==> CacheRemembers(env, after, signature);
    case FailedTo(message) =>
      FailureKeepsSpacing(env, db, after);
    case Refreshed(execution, row) =>
      FetchingKeepsSpacing(env, db, execution, after);
  }

  lemma FailureKeepsSpacing(env: Env, db: Db, after: Db)
    requires CacheIsLastFetch(env, db) && FetchesSpaced(env, db.executions)
    requires |after.executions| == |db.executions| + 1 && after.executions[..|db.executions|] == db.executions
    requires after.executions[|db.executions|].Failed? && after.cache == db.cache
    ensures CacheIsLastFetch(env, after) && FetchesSpaced(env, after.executions)
  {
    forall i, j | 0 <= i < j < |after.executions|
      ensures FarApart(env, after.executions[i], after.executions[j])
    {
      if j < |db.executions| {
        assert FarApart(env, db.executions[i], db.executions[j]);
      }
    }
    forall signature: string
      ensures CacheRemembers(env, after, signature)
    {
      assert CacheRemembers(env, db, signature);
    }
  }

  /**
  The portals are spared: over every sequence of workers, whatever their clocks show, and whichever of
  them fail or crash, any two committed fetches of one query start at least the time to live apart.
  */
  lemma {:induction false} FetchesAreSpaced(env: Env, db: Db, jobs: seq<Job>)
    requires 0 <= env.ttl && CacheIsLastFetch(env, db) && FetchesSpaced(env, db.executions)
    ensures var after := CommittedAll(env, db, jobs);
            CacheIsLastFetch(env, after) && FetchesSpaced(env, after.executions)
  {
    hide CacheIsLastFetch, FetchesSpaced, Committed;
    if jobs == [] {
    } else {
      var n := |jobs| - 1;
      FetchesAreSpaced(env, db, jobs[..n]);
      WorkerKeepsSpacing(env, CommittedAll(env, db, jobs[..n]), jobs[n]);
    }
  }

  // ----- The planner tick

  /** `list_due`: the due alerts in some order, each once. */
  ghost predicate ListedDue(db: Db, now: Time, due: seq<SearchAlert>) {
    && (forall a :: a in due <==> a.id in db.alerts && db.alerts[a.id] == a && IsDue(a, now))
    && (forall i, j :: 0 <= i < j < |due| ==> due[i].id != due[j].id)
  }

  /** Records are stored under their ids, with a condition group as their tree. */
  ghost predicate AlertsStored(db: Db) {
    forall id :: id in db.alerts ==>
      db.alerts[id].id == id && db.alerts[id].conditions.Group? && WellFormed(db.alerts[id].conditions)
  }

  method ListDue(db: Db, now: Time) returns (due: seq<SearchAlert>)
    requires AlertsStored(db)
    ensures ListedDue(db, now, due)
  {
    hide WellFormed;
    due := [];
    var left := db.alerts.Keys;
    while left != {}
      invariant left <= db.alerts.Keys
      invariant forall a :: a in due <==> a.id in db.alerts.Keys - left && db.alerts[a.id] == a && IsDue(a, now)
      invariant forall i, j :: 0 <= i < j < |due| ==> due[i].id != due[j].id
      decreases left
    {
      var id :| id in left;
      ghost var before := due;
      if IsDue(db.alerts[id], now) {
        assert forall i :: 0 <= i < |due| ==> due[i] in due;
        due := due + [db.alerts[id]];
      }
      left := left - {id};
      assert forall a :: a in due <==> a in before || (a == db.alerts[id] && IsDue(a, now));
    }
  }

  /** What a worker meets: its clock, and what the portal answers. */
  datatype World = World(now: Time, fetched: Fetched, seenAt: nat -> Time)

  function JobsOf(plan: seq<QueryPlan.PlannedQuery>, world: QueryPlan.PlannedQuery -> World): seq<Job> {
    seq(|plan|, i requires 0 <= i < |plan| =>
      Job(plan[i], world(plan[i]).now, world(plan[i]).fetched, world(plan[i]).seenAt))
  }

  /** The jobs of a tick that lists its alerts at `now`: the plan of the alerts then due, run no earlier. */
  ghost predicate IsTick(planner: QueryPlan.Planner, db: Db, now: Time, jobs: seq<Job>) {
    && (forall job :: job in jobs ==> now <= job.now)
    && exists due :: ListedDue(db, now, due) && Plans(planner, due, jobs)
  }

  ghost predicate Plans(planner: QueryPlan.Planner, due: seq<SearchAlert>, jobs: seq<Job>) {
    var plan := QueryPlan.PlanOf(planner, QueryPlan.Pairs(due));
    |plan| == |jobs| && forall i :: 0 <= i < |plan| ==> jobs[i].query == plan[i]
  }

  class PlannerTick {
    const cycle: RunAlertCycle
    const planner: QueryPlan.Planner

    constructor (cycle: RunAlertCycle, planner: QueryPlan.Planner)
      ensures this.cycle == cycle && this.planner == planner
    {
      this.cycle := cycle;
      this.planner := planner;
    }

    method Run(committed: Db, now: Time, world: QueryPlan.PlannedQuery -> World)
      returns (jobs: seq<Job>, after: Db, report: Option<Report>)
      requires AlertsStored(committed) && (forall query :: now <= world(query).now)
      ensures IsTick(planner, committed, now, jobs)
      ensures forall i :: 0 <= i < |jobs| ==>
                var met := world(jobs[i].query);
                jobs[i].now == met.now && jobs[i].fetched == met.fetched && jobs[i].seenAt == met.seenAt
      ensures after == CommittedAll(cycle.env, committed, jobs)
      ensures report.None? <==> AllRun(cycle.env, committed, jobs).Crashed?
      ensures report.Some? ==> report.value.matchesCreated == |after.matches| - |committed.matches|
    {
      hide QueryPlan.PlanOf, QueryPlan.Pairs, WellFormed, CommittedAll, AllRun, FailedIn;
      var due := ListDue(committed, now);
      var plan := QueryPlan.Plan(planner, due);
      jobs := JobsOf(plan, world);
      assert Plans(planner, due, jobs);
      after, report := cycle.Run(committed, jobs);
    }
  }

  // ----- Evaluations of one alert

  /** The worker commits an evaluation of the alert. */
  predicate Evaluates(env: Env, db: Db, job: Job, id: nat) {
    OneRun(env, db, job).Done? && OneRun(env, db, job).ok && HasAlert(job.query.alerts, id)
  }

  predicate HasAlert(alerts: seq<SearchAlert>, id: nat) {
    exists a :: a in alerts && a.id == id
  }

  /** Some worker of the tick commits an evaluation of the alert. */
  ghost predicate TickEvaluates(env: Env, db: Db, jobs: seq<Job>, id: nat) {
    exists i :: 0 <= i < |jobs| && Evaluates(env, CommittedAll(env, db, jobs[..i]), jobs[i], id)
  }

  function LastRun(db: Db, id: nat): Option<Time> {
    if id in db.alerts then db.alerts[id].lastRunAt else None
  }

  lemma {:induction false} EvaluationMarks(
    env: Env, db: Db, alerts: seq<SearchAlert>, candidates: seq<Rules.Property>, now: Time, id: nat)
    requires AlertsHandled(env, db, alerts, candidates, now).Some?
    ensures LastRun(AlertsHandled(env, db, alerts, candidates, now).value, id)
            == if HasAlert(alerts, id) then Some(now) else LastRun(db, id)
  {
    hide Rules.Evaluate, MatchesStored;
    if alerts == [] {
    } else {
      var n := |alerts| - 1;
      EvaluationMarks(env, db, alerts[..n], candidates, now, id);
      var middle := AlertsHandled(env, db, alerts[..n], candidates, now).value;
      var found := Rules.Evaluate(env.lib, env.reg, alerts[n].conditions, candidates);
      if found.Success? {
        MatchesKeepTheRest(middle, alerts[n], found.value, now);
      }
      assert forall a :: a in alerts <==> a in alerts[..n] || a == alerts[n];
    }
  }

  /** A worker marks exactly the alerts it evaluates, with its own start. */
  lemma WorkerMarks(env: Env, db: Db, job: Job, id: nat)
    ensures LastRun(Committed(env, db, job), id)
            == if Evaluates(env, db, job, id) then Some(job.now) else LastRun(db, id)
  {
    hide Loaded, AlertsHandled, IngestedAll, HasAlert;
    var r := Resolved(env, db, job, true);
    ResolvingKeepsMatches(env, db, job, true);
    if r.Candidates? && OneRun(env, db, job).Done? {
      EvaluationMarks(env, r.db, job.query.alerts, Loaded(r.db, r.ids), job.now, id);
    }
  }

  lemma {:induction false} TickMarks(env: Env, db: Db, jobs: seq<Job>, n: nat, now: Time, id: nat)
    requires n <= |jobs| && forall job :: job in jobs ==> now <= job.now
    ensures var last := LastRun(CommittedAll(env, db, jobs[..n]), id);
            && ((exists i :: 0 <= i < n && Evaluates(env, CommittedAll(env, db, jobs[..i]), jobs[i], id)) ==>
                  last.Some? && now <= last.value)
            && (LastRun(db, id).Some? ==> last.Some? && (now <= last.value || last == LastRun(db, id)))
  {
    hide Committed, Evaluates;
    if n == 0 {
    } else {
      var job := jobs[n - 1];
      assert job in jobs && jobs[..n][..n - 1] == jobs[..n - 1];
      TickMarks(env, db, jobs, n - 1, now, id);
      WorkerMarks(env, CommittedAll(env, db, jobs[..n - 1]), job, id);
    }
  }

  /** What happens to the alerts: a planner tick, or an edit by the user in between. */
  datatype Event =
    | Tick(now: Time, jobs: seq<Job>)
    | Edit(alert: SearchAlert)

  function Applied(env: Env, db: Db, event: Event): Db {
    match event
    case Tick(_, jobs) => CommittedAll(env, db, jobs)
    case Edit(alert) => AlertSaved(db, alert)
  }

  function After(env: Env, db: Db, events: seq<Event>): Db {
    if events == [] then db else Applied(env, After(env, db, events[..|events| - 1]), events[|events| - 1])
  }

  /** Ticks plan what is due, at clock readings that never go back; edits keep the time of the last run. */
  ghost predicate IsHistory(env: Env, planner: QueryPlan.Planner, db: Db, events: seq<Event>) {
    && (forall k :: 0 <= k < |events| ==> IsStep(planner, After(env, db, events[..k]), events[k]))
    && (forall i, j :: 0 <= i < j < |events| && events[i].Tick? && events[j].Tick? ==> events[i].now <= events[j].now)
  }

  ghost predicate IsStep(planner: QueryPlan.Planner, db: Db, event: Event) {
    match event
    case Tick(now, jobs) => IsTick(planner, db, now, jobs)
    case Edit(alert) => LastRun(db, alert.id) == alert.lastRunAt
  }

  /** From a tick that evaluates an alert on, its last run is no earlier than that tick. */
  lemma {:induction false} MarkStays(
    env: Env, planner: QueryPlan.Planner, db: Db, events: seq<Event>, i: nat, k: nat, id: nat)
    requires IsHistory(env, planner, db, events) && i < k <= |events|
    requires events[i].Tick? && TickEvaluates(env, After(env, db, events[..i]), events[i].jobs, id)
    ensures var last := LastRun(After(env, db, events[..k]), id); last.Some? && events[i].now <= last.value
  {
    hide TickEvaluates, CommittedAll, IsStep, Applied, LastRun;
    var earlier, event := After(env, db, events[..k - 1]), events[k - 1];
    assert events[..k][..k - 1] == events[..k - 1];
    assert IsStep(planner, earlier, event);
    if i < k - 1 {
      MarkStays(env, planner, db, events, i, k - 1, id);
    }
    StepMarks(env, planner, earlier, event, events[i].now, id);
  }

  lemma StepMarks(env: Env, planner: QueryPlan.Planner, db: Db, event: Event, since: Time, id: nat)
    requires IsStep(planner, db, event) && (event.Tick? ==> since <= event.now)
    requires || (event.Tick? && TickEvaluates(env, db, event.jobs, id))
             || (LastRun(db, id).Some? && since <= LastRun(db, id).value)
    ensures var last := LastRun(Applied(env, db, event), id); last.Some? && since <= last.value
  {
    hide TickEvaluates, CommittedAll, Plans;
    if event.Tick? {
      TickMarksAll(env, db, event.jobs, event.now, id);
    }
  }

  lemma TickMarksAll(env: Env, db: Db, jobs: seq<Job>, now: Time, id: nat)
    requires forall job :: job in jobs ==> now <= job.now
    ensures var last := LastRun(CommittedAll(env, db, jobs), id);
            && (TickEvaluates(env, db, jobs, id) ==> last.Some? && now <= last.value)
            && (LastRun(db, id).Some? ==> last.Some? && (now <= last.value || last == LastRun(db, id)))
  {
    hide Evaluates, CommittedAll;
    assert jobs[..|jobs|] == jobs;
    TickMarks(env, db, jobs, |jobs|, now, id);
  }

  lemma PlannedAlertsAreDue(planner: QueryPlan.Planner, due: seq<SearchAlert>, jobs: seq<Job>, i: nat, a: SearchAlert)
    requires Plans(planner, due, jobs) && i < |jobs| && a in jobs[i].query.alerts
    ensures a in due
  {
    var pairs := QueryPlan.Pairs(due);
    var key := QueryPlan.DistinctKeys(planner, pairs)[i];
    QueryPlan.AlertsWithMembers(planner, pairs, key, a);
    var pair :| pair in pairs && pair.0 == a;
    QueryPlan.PairsAreSubscriptions(due, a, pair.1);
    hide QueryPlan.Pairs, QueryPlan.DistinctKeys;
  }

  /** A tick evaluates only alerts that are due when it lists them. */
  lemma EvaluatedAlertIsDue(env: Env, planner: QueryPlan.Planner, db: Db, now: Time, jobs: seq<Job>, id: nat)
    requires IsTick(planner, db, now, jobs) && TickEvaluates(env, db, jobs, id)
    ensures id in db.alerts && IsDue(db.alerts[id], now)
  {
    hide OneRun, CommittedAll, Plans;
    var i :| 0 <= i < |jobs| && Evaluates(env, CommittedAll(env, db, jobs[..i]), jobs[i], id);
    var a :| a in jobs[i].query.alerts && a.id == id;
    var due :| ListedDue(db, now, due) && Plans(planner, due, jobs);
    PlannedAlertsAreDue(planner, due, jobs, i, a);
  }

  /**
  The user's pace is kept: over every history of ticks and edits, two ticks that both evaluate an alert
  start at least the frequency apart that the alert has at the later one.
  */
  lemma EvaluationsAreSpaced(env: Env, planner: QueryPlan.Planner, db: Db, events: seq<Event>, i: nat, j: nat, id: nat)
    requires IsHistory(env, planner, db, events) && i < j < |events| && events[i].Tick? && events[j].Tick?
    requires TickEvaluates(env, After(env, db, events[..i]), events[i].jobs, id)
    requires TickEvaluates(env, After(env, db, events[..j]), events[j].jobs, id)
    ensures id in After(env, db, events[..j]).alerts
    ensures After(env, db, events[..j]).alerts[id].frequencySeconds <= events[j].now - events[i].now
  {
    hide TickEvaluates, IsTick, After;
    MarkStays(env, planner, db, events, i, j, id);
    assert IsStep(planner, After(env, db, events[..j]), events[j]);
    EvaluatedAlertIsDue(env, planner, After(env, db, events[..j]), events[j].now, events[j].jobs, id);
  }
}
