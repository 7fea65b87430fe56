/** The planner meets what the cycle asks of its queries: a tick's transactions may be serialized in any order. */
module TickOrder {
  import opened Alerts
  import opened Tables
  import opened AlertCycle
  import opened CycleRefinement
  import opened Conservation
  import opened CycleOrder
  import opened CommitOrder
  import Collections
  import Pacing
  import QueryPlan

  lemma {:induction false} DifferentSignaturesOccurOnce(jobs: seq<Job>)
    requires forall i, j :: 0 <= i < j < |jobs| ==> jobs[i].query.signature != jobs[j].query.signature
    ensures forall a :: a in jobs ==> multiset(jobs)[a] == 1
  {
    if jobs == [] {
    } else {
      var n := |jobs| - 1;
      DifferentSignaturesOccurOnce(jobs[..n]);
      assert jobs == jobs[..n] + [jobs[n]];
      assert jobs[n] !in jobs[..n];
      assert forall a :: a in jobs[..n] ==> a in multiset(jobs[..n]);
    }
  }

  /** No two queries of a plan share a signature, so no two jobs of a tick do. */
  lemma PlansHaveDistinctQueries(planner: QueryPlan.Planner, due: seq<SearchAlert>, jobs: seq<Job>)
    requires Pacing.Plans(planner, due, jobs) && QueryPlan.Injective(planner.hash)
    requires forall pair :: pair in QueryPlan.Pairs(due) ==> QueryPlan.Separable(planner, pair)
    ensures DistinctQueries(jobs)
  {
    hide QueryPlan.Pairs, QueryPlan.PlanOf, QueryPlan.Separable;
    QueryPlan.DifferentSignatures(planner, QueryPlan.Pairs(due));
    DifferentSignaturesOccurOnce(jobs);
  }

  /** Every stored alert can be planned: slugs and pushed texts hold no separator. */
  ghost predicate Plannable(planner: QueryPlan.Planner, db: Db) {
    && QueryPlan.Injective(planner.hash)
    && forall id, portal :: id in db.alerts && portal in db.alerts[id].portalSlugs ==>
         QueryPlan.Separable(planner, (db.alerts[id], portal))
  }

  /**
  What the tables and the portals' answers have to meet, whatever the planner does: listings carry the
  queried portal's slug, and no worker that does not crash changes what another takes from the cache.
  */
  ghost predicate WorldOk(env: Env, db: Db, jobs: seq<Job>, owner: nat -> nat) {
    && WellBehaved(env) && Inv(env, db) && MatchInv(db)
    && (forall id :: id in db.alerts ==> owner(id) == db.alerts[id].userId)
    && (forall job :: job in jobs ==> Tagged(job.query.portal, ScrapedBy(db, job)))
    && CacheStaysTrueFor(env, db, Healthy(env, db, jobs), jobs)
  }

  lemma SubscriptionsAreStored(planner: QueryPlan.Planner, db: Db, now: Time, due: seq<SearchAlert>)
    requires Plannable(planner, db) && Pacing.ListedDue(db, now, due)
    ensures forall pair :: pair in QueryPlan.Pairs(due) ==> QueryPlan.Separable(planner, pair)
  {
    hide QueryPlan.Pairs, QueryPlan.Separable, QueryPlan.Injective;
    forall pair | pair in QueryPlan.Pairs(due)
      ensures QueryPlan.Separable(planner, pair)
    {
      QueryPlan.PairsAreSubscriptions(due, pair.0, pair.1);
      assert pair == (pair.0, pair.1);
    }
  }

  lemma TickIsOk(
    env: Env, planner: QueryPlan.Planner, db: Db, now: Time, due: seq<SearchAlert>, jobs: seq<Job>, owner: nat -> nat)
    requires Pacing.ListedDue(db, now, due) && Pacing.Plans(planner, due, jobs)
    requires Plannable(planner, db) && WorldOk(env, db, jobs, owner)
    ensures CommitsOk(env, db, jobs, owner)
  {
    hide Pacing.Plans, DistinctQueries, QueryPlan.Separable, QueryPlan.Pairs, WellBehaved, Inv, MatchInv, Tagged,
      CacheStaysTrueFor, Healthy;
    SubscriptionsAreStored(planner, db, now, due);
    PlansHaveDistinctQueries(planner, due, jobs);
    forall job, a | job in jobs && a in job.query.alerts
      ensures owner(a.id) == a.userId
    {
      var i :| 0 <= i < |jobs| && jobs[i] == job;
      Pacing.PlannedAlertsAreDue(planner, due, jobs, i, a);
    }
  }

  /**
  A planner tick's transactions commit the same matches and notifications in every order, whichever of
  them crash, and the same properties if no two that do not crash leave different versions of a listing.
  */
  lemma TickOrderDoesNotMatter(
    env: Env, planner: QueryPlan.Planner, db: Db, now: Time, jobs: seq<Job>, other: seq<Job>, owner: nat -> nat)
    requires Pacing.IsTick(planner, db, now, jobs) && Plannable(planner, db) && WorldOk(env, db, jobs, owner)
    requires multiset(jobs) == multiset(other)
    ensures var a, b := CommittedAll(env, db, jobs), CommittedAll(env, db, other);
            && SameResults(a, b)
            && (ScrapesAgree(env, db, Healthy(env, db, jobs)) ==> ContentsOf(a) == ContentsOf(b))
    ensures (forall job :: job in jobs ==> !IsDoomed(env, db, job)) ==>
              AllRun(env, db, jobs).Done? && AllRun(env, db, other).Done?
  {
    hide Pacing.ListedDue, Pacing.Plans, Plannable, ContentsOf, SameResults, AllRun, CommittedAll, Healthy, CommitsOk,
      IsDoomed, ScrapesAgree;
    var due :| Pacing.ListedDue(db, now, due) && Pacing.Plans(planner, due, jobs);
    TickIsOk(env, planner, db, now, due, jobs, owner);
    ReorderingKeepsOk(env, db, jobs, other, owner);
    CommitsDoNotDependOnOrder(env, db, jobs, other, owner);
    Collections.SameMembers(jobs, other);
    if forall job :: job in jobs ==> !IsDoomed(env, db, job) {
      NobodyDoomedNobodyCrashes(env, db, jobs, owner);
      NobodyDoomedNobodyCrashes(env, db, other, owner);
    }
  }
}
