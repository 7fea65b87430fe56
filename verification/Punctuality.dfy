/**
The other half of the user's pace: a tick plans every alert, for each of its portals, as soon as its
frequency has passed since its last evaluation.
*/
module Punctuality {
  import opened Wrappers
  import opened Alerts
  import opened Tables
  import opened AlertCycle
  import opened Pacing
  import QueryPlan
  import TickOrder

  /** It is active, and it never ran, or last ran at least its frequency ago. */
  predicate FrequencyHasPassed(alert: SearchAlert, last: Option<Time>, now: Time) {
    alert.isActive && match last case None => true case Some(at) => at + alert.frequencySeconds <= now
  }

  /** The job carries the alert to the portal. */
  predicate Carries(job: Job, portal: string, id: nat) {
    job.query.portal == portal && HasAlert(job.query.alerts, id)
  }

  lemma CarriedIsDue(planner: QueryPlan.Planner, db: Db, now: Time, due: seq<SearchAlert>, jobs: seq<Job>, i: nat,
                     portal: string, id: nat)
    requires ListedDue(db, now, due) && Plans(planner, due, jobs) && TickOrder.Plannable(planner, db)
    requires i < |jobs| && Carries(jobs[i], portal, id)
    ensures id in db.alerts && db.alerts[id] in due && portal in db.alerts[id].portalSlugs
    ensures i < |QueryPlan.PlanOf(planner, QueryPlan.Pairs(due))|
    ensures QueryPlan.Serves(planner, due, i, db.alerts[id], portal)
  {
    hide Plans, QueryPlan.Pairs, QueryPlan.PlanOf, QueryPlan.ParamsFor, QueryPlan.Separable, QueryPlan.Injective;
    var a :| a in jobs[i].query.alerts && a.id == id;
    PlannedAlertsAreDue(planner, due, jobs, i, a);
    TickOrder.SubscriptionsAreStored(planner, db, now, due);
    PlannedQuery(planner, due, jobs, i);
    QueryPlan.QueryServesItsShape(planner, due, i, a);
  }

  lemma PlannedQuery(planner: QueryPlan.Planner, due: seq<SearchAlert>, jobs: seq<Job>, i: nat)
    requires Plans(planner, due, jobs) && i < |jobs|
    ensures i < |QueryPlan.PlanOf(planner, QueryPlan.Pairs(due))|
    ensures jobs[i].query == QueryPlan.PlanOf(planner, QueryPlan.Pairs(due))[i]
  {
    hide QueryPlan.PlanOf, QueryPlan.Pairs;
  }

  lemma DueIsCarried(planner: QueryPlan.Planner, db: Db, now: Time, due: seq<SearchAlert>, jobs: seq<Job>,
                     portal: string, id: nat) returns (i: nat)
    requires ListedDue(db, now, due) && Plans(planner, due, jobs) && TickOrder.Plannable(planner, db)
    requires id in db.alerts && db.alerts[id].id == id && db.alerts[id] in due && portal in db.alerts[id].portalSlugs
    ensures i < |jobs| && Carries(jobs[i], portal, id)
  {
    hide Plans, QueryPlan.Pairs, QueryPlan.PlanOf, QueryPlan.ParamsFor, QueryPlan.Separable, QueryPlan.Injective;
    TickOrder.SubscriptionsAreStored(planner, db, now, due);
    QueryPlan.SubscriptionIsServed(planner, due, db.alerts[id], portal);
    i :| 0 <= i < |QueryPlan.PlanOf(planner, QueryPlan.Pairs(due))|
         && QueryPlan.Serves(planner, due, i, db.alerts[id], portal);
    PlannedLength(planner, due, jobs);
    PlannedQuery(planner, due, jobs, i);
  }

  lemma PlannedLength(planner: QueryPlan.Planner, due: seq<SearchAlert>, jobs: seq<Job>)
    requires Plans(planner, due, jobs)
    ensures |jobs| == |QueryPlan.PlanOf(planner, QueryPlan.Pairs(due))|
  {
    hide QueryPlan.PlanOf, QueryPlan.Pairs;
  }

  /** A tick's listing holds exactly the stored alerts that are active and whose frequency has passed. */
  lemma ListedMeans(db: Db, now: Time, due: seq<SearchAlert>, id: nat)
    requires ListedDue(db, now, due) && id in db.alerts && db.alerts[id].id == id
    ensures db.alerts[id] in due <==> FrequencyHasPassed(db.alerts[id], LastRun(db, id), now)
  {
  }

  /**
  A tick plans a stored alert for a portal exactly when the alert watches the portal, is active, and
  never ran or last ran at least its frequency ago; and then in one job only.
  */
  lemma PlannedIffDue(
    planner: QueryPlan.Planner, db: Db, now: Time, jobs: seq<Job>, portal: string, id: nat)
    requires IsTick(planner, db, now, jobs) && TickOrder.Plannable(planner, db)
    requires id in db.alerts && db.alerts[id].id == id
    ensures (exists i :: 0 <= i < |jobs| && Carries(jobs[i], portal, id))
            <==> portal in db.alerts[id].portalSlugs && FrequencyHasPassed(db.alerts[id], LastRun(db, id), now)
    ensures forall i, j ::
              0 <= i < |jobs| && 0 <= j < |jobs| && Carries(jobs[i], portal, id) && Carries(jobs[j], portal, id)
              ==> i == j
  {
    hide Plans, ListedDue, Carries, TickOrder.Plannable, FrequencyHasPassed, QueryPlan.Serves;
    var due :| ListedDue(db, now, due) && Plans(planner, due, jobs);
    ListedMeans(db, now, due, id);
    if i :| 0 <= i < |jobs| && Carries(jobs[i], portal, id) {
      CarriedIsDue(planner, db, now, due, jobs, i, portal, id);
    }
    if db.alerts[id] in due && portal in db.alerts[id].portalSlugs {
      var i := DueIsCarried(planner, db, now, due, jobs, portal, id);
    }
    forall i, j | 0 <= i < |jobs| && 0 <= j < |jobs| && Carries(jobs[i], portal, id) && Carries(jobs[j], portal, id)
      ensures i == j
    {
      CarriedOnce(planner, db, now, due, jobs, i, j, portal, id);
    }
  }

  lemma CarriedOnce(planner: QueryPlan.Planner, db: Db, now: Time, due: seq<SearchAlert>, jobs: seq<Job>,
                    i: nat, j: nat, portal: string, id: nat)
    requires ListedDue(db, now, due) && Plans(planner, due, jobs) && TickOrder.Plannable(planner, db)
    requires i < |jobs| && Carries(jobs[i], portal, id) && j < |jobs| && Carries(jobs[j], portal, id)
    ensures i == j
  {
    hide ListedDue, Plans, Carries, QueryPlan.Serves, QueryPlan.Pairs, QueryPlan.PlanOf, QueryPlan.Separable,
      QueryPlan.Injective;
    CarriedIsDue(planner, db, now, due, jobs, i, portal, id);
    CarriedIsDue(planner, db, now, due, jobs, j, portal, id);
    TickOrder.SubscriptionsAreStored(planner, db, now, due);
    QueryPlan.PlanIsAMinimalPartition(planner, due);
  }

  // ----- Over histories

  /** When the last of some workers that commit an evaluation of the alert started; without one, `before`. */
  function LastStart(env: Env, db: Db, jobs: seq<Job>, id: nat, before: Option<Time>): Option<Time> {
    if jobs == [] then before
    else
      var n := |jobs| - 1;
      if Evaluates(env, CommittedAll(env, db, jobs[..n]), jobs[n], id) then Some(jobs[n].now)
      else LastStart(env, db, jobs[..n], id, before)
  }

  /** When the last committed evaluation of the alert started; before any, what is stored at the beginning. */
  function LastEvaluation(env: Env, db: Db, events: seq<Event>, id: nat): Option<Time> {
    if events == [] then LastRun(db, id)
    else
      var n := |events| - 1;
      match events[n]
      case Edit(_) => LastEvaluation(env, db, events[..n], id)
      case Tick(_, jobs) =>
        LastStart(env, After(env, db, events[..n]), jobs, id, LastEvaluation(env, db, events[..n], id))
  }

  lemma {:induction false} MarksAreStarts(env: Env, db: Db, jobs: seq<Job>, id: nat)
    ensures LastRun(CommittedAll(env, db, jobs), id) == LastStart(env, db, jobs, id, LastRun(db, id))
  {
    hide Committed, Evaluates, LastRun;
    if jobs == [] {
    } else {
      var n := |jobs| - 1;
      MarksAreStarts(env, db, jobs[..n], id);
      WorkerMarks(env, CommittedAll(env, db, jobs[..n]), jobs[n], id);
    }
  }

  lemma EditKeepsMark(db: Db, alert: SearchAlert, id: nat)
    requires LastRun(db, alert.id) == alert.lastRunAt
    ensures LastRun(AlertSaved(db, alert), id) == LastRun(db, id)
  {
  }

  lemma {:induction false} MarkIsLastEvaluation(
    env: Env, planner: QueryPlan.Planner, db: Db, events: seq<Event>, k: nat, id: nat)
    requires IsHistory(env, planner, db, events) && k <= |events|
    ensures LastRun(After(env, db, events[..k]), id) == LastEvaluation(env, db, events[..k], id)
  {
    hide IsTick, CommittedAll, LastRun, AlertSaved, LastStart;
    if k == 0 {
      assert events[..0] == [];
    } else {
      var n := k - 1;
      MarkIsLastEvaluation(env, planner, db, events, n, id);
      var before := After(env, db, events[..n]);
      assert events[..k][..n] == events[..n] && IsStep(planner, before, events[n]);
      match events[n]
      case Tick(_, jobs) => MarksAreStarts(env, before, jobs, id);
      case Edit(alert) => EditKeepsMark(before, alert, id);
    }
  }

  /**
  No alert is starved: over every history of ticks and edits, a tick plans an alert for a portal exactly
  when the alert then watches the portal and is active, and its last committed evaluation, if any, started
  at least the frequency ago that it then has.
  */
  lemma PlannedIffFrequencyHasPassed(
    env: Env, planner: QueryPlan.Planner, db: Db, events: seq<Event>, k: nat, portal: string, id: nat)
    requires IsHistory(env, planner, db, events) && k < |events| && events[k].Tick?
    requires var here := After(env, db, events[..k]);
             TickOrder.Plannable(planner, here) && id in here.alerts && here.alerts[id].id == id
    ensures var here := After(env, db, events[..k]);
            (exists i :: 0 <= i < |events[k].jobs| && Carries(events[k].jobs[i], portal, id))
            <==> && portal in here.alerts[id].portalSlugs
                 && FrequencyHasPassed(here.alerts[id], LastEvaluation(env, db, events[..k], id), events[k].now)
  {
    hide IsTick, Carries, FrequencyHasPassed, TickOrder.Plannable, After, LastEvaluation;
    var here := After(env, db, events[..k]);
    assert IsStep(planner, here, events[k]);
    MarkIsLastEvaluation(env, planner, db, events, k, id);
    PlannedIffDue(planner, here, events[k].now, events[k].jobs, portal, id);
  }
}
