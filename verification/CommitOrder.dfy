/**
Crashing workers included, the order of a cycle's transactions does not matter: a worker that cannot
store what its portal answered, or cannot evaluate its alerts, rolls back, and the others commit what
they would commit without it.
*/
module CommitOrder {
  import opened Tables
  import opened AlertCycle
  import opened CycleRefinement
  import opened Conservation
  import opened CycleOrder
  import opened Crashes
  import Collections

  /** Nothing is cached for the query, and some listing of the answer cannot be stored. */
  ghost predicate IsUnstorable(env: Env, start: Db, job: Job) {
    !IsCached(start, job) && job.fetched.Listings? && !Storable(env, job.fetched.listings)
  }

  /** There are candidates, and the engine raises on some alert. */
  ghost predicate IsUnevaluable(env: Env, start: Db, job: Job) {
    !IsUnanswered(start, job) && !Evaluable(env, job.query.alerts, CandidatesOf(env, start, job))
  }

  ghost predicate IsDoomed(env: Env, start: Db, job: Job) {
    IsUnstorable(env, start, job) || IsUnevaluable(env, start, job)
  }

  /** The jobs that are not doomed, in order. */
  ghost function Healthy(env: Env, start: Db, jobs: seq<Job>): seq<Job> {
    if jobs == [] then []
    else
      var n := |jobs| - 1;
      Healthy(env, start, jobs[..n]) + if IsDoomed(env, start, jobs[n]) then [] else [jobs[n]]
  }

  lemma {:induction false} HealthyMembers(env: Env, start: Db, jobs: seq<Job>, job: Job)
    ensures multiset(Healthy(env, start, jobs))[job] == if IsDoomed(env, start, job) then 0 else multiset(jobs)[job]
    ensures job in Healthy(env, start, jobs) <==> job in jobs && !IsDoomed(env, start, job)
  {
    hide IsDoomed;
    if jobs == [] {
      assert Healthy(env, start, jobs) == [];
    } else {
      var n := |jobs| - 1;
      HealthyMembers(env, start, jobs[..n], job);
      assert jobs == jobs[..n] + [jobs[n]];
    }
  }

  lemma {:induction false} HealthyPrefix(env: Env, start: Db, jobs: seq<Job>, n: nat)
    requires n <= |jobs|
    ensures Healthy(env, start, jobs[..n]) <= Healthy(env, start, jobs)
  {
    hide IsDoomed;
    if n == |jobs| {
      assert jobs[..n] == jobs;
    } else {
      HealthyPrefix(env, start, jobs[..|jobs| - 1], n);
      assert jobs[..|jobs| - 1][..n] == jobs[..n];
    }
  }

  lemma UnstorableCommitsNothing(env: Env, start: Db, done: seq<Job>, db: Db, job: Job, owner: nat -> nat)
    requires WellBehaved(env) && Along(env, start, done, db, owner) && IsUnstorable(env, start, job)
    requires Tagged(job.query.portal, job.fetched.listings)
    requires forall other :: other in done ==> other.query.signature != job.query.signature
    ensures Committed(env, db, job) == db
  {
    hide WellBehaved, Inv, ContentsOf, Stored, IngestedAll, Storable, Fails, AllSettled, AllHits, Tagged, Overlaid,
      AlertsHandled, Loaded;
    SameCache(start, done, db, job);
    StorableIffNothingFails(env, job.fetched.listings);
    IngestionRaisesIffUnstorable(env, job.query.portal, db, job.fetched.listings, job.seenAt);
  }

  lemma UnevaluableCommitsNothing(env: Env, start: Db, done: seq<Job>, db: Db, job: Job, owner: nat -> nat)
    requires WellBehaved(env) && Along(env, start, done, db, owner) && Fits(env, start, done, job)
    requires Tagged(job.query.portal, ScrapedBy(start, job)) && Storable(env, ScrapedBy(start, job))
    requires IsUnevaluable(env, start, job)
    ensures Committed(env, db, job) == db
  {
    hide WellBehaved, Along, Fits, Tagged, Storable, ScrapedBy, CandidatesOf, Evaluable, Resolved, Loaded, Resolves,
      AlertsHandled, CacheGet;
    ResolutionAlong(env, start, done, db, job, owner);
    var r := Resolved(env, db, job, true);
    EvaluationRaisesIff(env, r.db, job.query.alerts, Loaded(r.db, r.ids), job.now);
  }

  /** What a cycle asks of its queries, doomed ones included, and of the world of the others. */
  ghost predicate CommitsOk(env: Env, start: Db, jobs: seq<Job>, owner: nat -> nat) {
    && WellBehaved(env) && Inv(env, start) && MatchInv(start) && DistinctQueries(jobs)
    && (forall job :: job in jobs ==> Tagged(job.query.portal, ScrapedBy(start, job)))
    && (forall job, a :: job in jobs && a in job.query.alerts ==> owner(a.id) == a.userId)
    && CacheStaysTrueFor(env, start, Healthy(env, start, jobs), jobs)
  }

  /** No healthy job leaves behind a changed version of what another job takes from the cache. */
  ghost predicate CacheStaysTrueFor(env: Env, start: Db, writers: seq<Job>, readers: seq<Job>) {
    forall a, b, p ::
      a in readers && b in writers && IsCached(start, a) && p in SettledBy(env, start, b)
      && p.id in CacheGet(start, a.query.signature, a.now).value
      ==> p.id in start.properties && start.properties[p.id].property == p
  }

  lemma HealthyCycleIsOk(env: Env, start: Db, jobs: seq<Job>, owner: nat -> nat)
    requires CommitsOk(env, start, jobs, owner)
    ensures CycleOk(env, start, Healthy(env, start, jobs), owner)
  {
    hide WellBehaved, Inv, MatchInv, Tagged, SettledBy, CandidatesOf, Storable, Evaluable, CacheGet, Healthy;
    forall job
      ensures multiset(Healthy(env, start, jobs))[job] == if IsDoomed(env, start, job) then 0 else multiset(jobs)[job]
      ensures job in Healthy(env, start, jobs) <==> job in jobs && !IsDoomed(env, start, job)
    {
      HealthyMembers(env, start, jobs, job);
    }
    forall job | job in Healthy(env, start, jobs)
      ensures JobOk(env, start, job, owner)
    {
      HealthyJobIsOk(env, start, job, owner);
    }
  }

  lemma HealthyJobIsOk(env: Env, start: Db, job: Job, owner: nat -> nat)
    requires !IsDoomed(env, start, job) && Tagged(job.query.portal, ScrapedBy(start, job))
    requires forall a :: a in job.query.alerts ==> owner(a.id) == a.userId
    ensures JobOk(env, start, job, owner)
  {
  }

  /** What a doomed job finds of the healthy ones before it. */
  lemma EarlierJobsFitDoomed(env: Env, start: Db, jobs: seq<Job>, n: nat, owner: nat -> nat)
    requires CommitsOk(env, start, jobs, owner) && n < |jobs|
    ensures Fits(env, start, Healthy(env, start, jobs[..n]), jobs[n])
  {
    hide WellBehaved, Inv, MatchInv, Tagged, SettledBy, CacheGet, Healthy, AllSettled, DistinctQueries;
    EarlierAreOthers(env, start, jobs, n);
    HealthyPrefix(env, start, jobs, n);
    var some := Healthy(env, start, jobs[..n]);
    forall p | p in AllSettled(env, start, some)
      ensures exists other :: other in Healthy(env, start, jobs) && p in SettledBy(env, start, other)
    {
      AllSettledCome(env, start, some, p);
      var other :| other in some && p in SettledBy(env, start, other);
      assert other in Healthy(env, start, jobs);
    }
    assert jobs[n] in jobs;
  }

  /** A doomed worker commits nothing, wherever in the cycle it runs. */
  lemma DoomedCommitsNothing(env: Env, start: Db, jobs: seq<Job>, n: nat, db: Db, owner: nat -> nat)
    requires CommitsOk(env, start, jobs, owner) && n < |jobs| && IsDoomed(env, start, jobs[n])
    requires Along(env, start, Healthy(env, start, jobs[..n]), db, owner)
    ensures Committed(env, db, jobs[n]) == db
  {
    hide WellBehaved, Inv, MatchInv, Along, Committed, Evaluable, CandidatesOf, Healthy, CacheStaysTrueFor, Fits,
      DistinctQueries;
    assert jobs[n] in jobs;
    EarlierAreOthers(env, start, jobs, n);
    EarlierJobsFitDoomed(env, start, jobs, n, owner);
    if IsUnstorable(env, start, jobs[n]) {
      UnstorableCommitsNothing(env, start, Healthy(env, start, jobs[..n]), db, jobs[n], owner);
    } else {
      UnevaluableCommitsNothing(env, start, Healthy(env, start, jobs[..n]), db, jobs[n], owner);
    }
  }

  lemma {:induction false} HealthyCommitTheSame(env: Env, start: Db, jobs: seq<Job>, n: nat, owner: nat -> nat)
    requires CommitsOk(env, start, jobs, owner) && n <= |jobs|
    ensures var healthy := AllRun(env, start, Healthy(env, start, jobs[..n]));
            healthy.Done? && CommittedAll(env, start, jobs[..n]) == healthy.db
  {
    hide IsDoomed, CommitsOk, OneRun, Along, CycleOk;
    HealthyCycleIsOk(env, start, jobs, owner);
    if n == 0 {
      assert jobs[..n] == [];
    } else {
      var earlier, job := jobs[..n - 1], jobs[n - 1];
      assert job in jobs && jobs[..n][..n - 1] == earlier;
      HealthyCommitTheSame(env, start, jobs, n - 1, owner);
      HealthyPrefix(env, start, jobs, n);
      HealthyPrefix(env, start, jobs, n - 1);
      var all := Healthy(env, start, jobs);
      RunsAlong(env, start, all, Healthy(env, start, jobs[..n]), owner);
      RunsAlong(env, start, all, Healthy(env, start, earlier), owner);
      if IsDoomed(env, start, job) {
        assert Healthy(env, start, jobs[..n]) == Healthy(env, start, earlier);
        DoomedCommitsNothing(env, start, jobs, n - 1, CommittedAll(env, start, earlier), owner);
      } else {
        var healthy := Healthy(env, start, jobs[..n]);
        assert healthy[..|healthy| - 1] == Healthy(env, start, earlier);
      }
    }
  }

  lemma RunsAlong(env: Env, start: Db, all: seq<Job>, some: seq<Job>, owner: nat -> nat)
    requires CycleOk(env, start, all, owner) && some <= all
    ensures AllRun(env, start, some).Done? && Along(env, start, some, AllRun(env, start, some).db, owner)
  {
    hide CycleOk, Along, AllRun;
    assert all[..|some|] == some;
    CycleAlong(env, start, all, |some|, owner);
  }

  lemma EarlierAreOthers(env: Env, start: Db, jobs: seq<Job>, n: nat)
    requires DistinctQueries(jobs) && n < |jobs|
    ensures forall other :: other in Healthy(env, start, jobs[..n]) ==> other.query.signature != jobs[n].query.signature
  {
    hide IsDoomed, DistinctQueries;
    EarlierJobsAreOthers(jobs, n);
    forall other | other in Healthy(env, start, jobs[..n])
      ensures other in jobs[..n]
    {
      HealthyMembers(env, start, jobs[..n], other);
      assert other in multiset(Healthy(env, start, jobs[..n]));
    }
  }

  /** What the workers commit is what the healthy ones commit. */
  lemma CommitsAreHealthy(env: Env, start: Db, jobs: seq<Job>, owner: nat -> nat)
    requires CommitsOk(env, start, jobs, owner)
    ensures var healthy := AllRun(env, start, Healthy(env, start, jobs));
            healthy.Done? && CommittedAll(env, start, jobs) == healthy.db
  {
    hide CommitsOk, CommittedAll, AllRun, Healthy;
    assert jobs[..|jobs|] == jobs;
    HealthyCommitTheSame(env, start, jobs, |jobs|, owner);
  }

  /**
  Order independence of what is committed: two serializations of the same workers, whichever of them
  crash, and for whatever reason, commit the same matches and the same (match, channel) notifications;
  and the same properties, if no two workers that do not crash leave different versions of one listing.
  */
  lemma CommitsDoNotDependOnOrder(env: Env, start: Db, jobs: seq<Job>, other: seq<Job>, owner: nat -> nat)
    requires CommitsOk(env, start, jobs, owner) && multiset(jobs) == multiset(other)
    ensures var a, b := CommittedAll(env, start, jobs), CommittedAll(env, start, other);
            && SameResults(a, b)
            && (ScrapesAgree(env, start, Healthy(env, start, jobs)) ==> ContentsOf(a) == ContentsOf(b))
  {
    hide Healthy, AllRun, CommittedAll, ContentsOf, SameResults, IsDoomed, CommitsOk, CycleOk, ScrapesAgree;
    HealthyIsReordered(env, start, jobs, other);
    ReorderingKeepsOk(env, start, jobs, other, owner);
    HealthyCycleIsOk(env, start, jobs, owner);
    CommitsAreHealthy(env, start, jobs, owner);
    CommitsAreHealthy(env, start, other, owner);
    OrderDoesNotMatter(env, start, Healthy(env, start, jobs), Healthy(env, start, other), owner);
  }

  lemma HealthyIsReordered(env: Env, start: Db, jobs: seq<Job>, other: seq<Job>)
    requires multiset(jobs) == multiset(other)
    ensures multiset(Healthy(env, start, jobs)) == multiset(Healthy(env, start, other))
  {
    hide Healthy, IsDoomed;
    forall job
      ensures multiset(Healthy(env, start, jobs))[job] == multiset(Healthy(env, start, other))[job]
    {
      HealthyMembers(env, start, jobs, job);
      HealthyMembers(env, start, other, job);
    }
  }

  lemma ReorderingKeepsOk(env: Env, start: Db, jobs: seq<Job>, other: seq<Job>, owner: nat -> nat)
    requires CommitsOk(env, start, jobs, owner) && multiset(jobs) == multiset(other)
    ensures CommitsOk(env, start, other, owner)
  {
    hide Healthy, IsDoomed, WellBehaved, Inv, MatchInv, Tagged, SettledBy, CacheGet;
    HealthyIsReordered(env, start, jobs, other);
    Collections.SameMembers(jobs, other);
    Collections.SameMembers(Healthy(env, start, jobs), Healthy(env, start, other));
  }

  /** A cycle without a doomed worker has no crash. */
  lemma NobodyDoomedNobodyCrashes(env: Env, start: Db, jobs: seq<Job>, owner: nat -> nat)
    requires CommitsOk(env, start, jobs, owner) && forall job :: job in jobs ==> !IsDoomed(env, start, job)
    ensures AllRun(env, start, jobs).Done?
  {
    hide CommitsOk, AllRun, IsDoomed, CommittedAll;
    CommitsAreHealthy(env, start, jobs, owner);
    AllAreHealthy(env, start, jobs);
  }

  lemma {:induction false} AllAreHealthy(env: Env, start: Db, jobs: seq<Job>)
    requires forall job :: job in jobs ==> !IsDoomed(env, start, job)
    ensures Healthy(env, start, jobs) == jobs
  {
    hide IsDoomed;
    if jobs == [] {
    } else {
      AllAreHealthy(env, start, jobs[..|jobs| - 1]);
      assert jobs[|jobs| - 1] in jobs;
    }
  }
}
