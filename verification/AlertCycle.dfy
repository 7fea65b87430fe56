/**
One alert cycle as transactions over the tables: for each planned query, cache or scrape, skip or
normalize each listing, evaluate every alert of the query, store new matches and enqueue their
notifications.

What the portal answers to a query and the clock readings are inputs.  A transaction that raises
anything but a ScraperError rolls back and takes the whole cycle down.
*/
module AlertCycle {
  import opened Wrappers
  import opened Alerts
  import opened Tables
  import QueryPlan
  import Rules

  datatype Fetched = Listings(listings: seq<RawListing>) | ScraperError(message: string)

  /** A planned query with the surroundings of its worker. */
  datatype Job = Job(query: QueryPlan.PlannedQuery, now: Time, fetched: Fetched, seenAt: nat -> Time)

  // ----- Resolving candidates

  datatype Progress = Progress(db: Db, ids: seq<PropertyId>, added: nat, issues: nat)

  /**
  One raw listing; None when normalizing it or adding the property raises. Without `skipping`, every
  listing is normalized.
  */
  function Ingested(
    env: Env, portal: string, s: Progress, raw: RawListing, now: Time, skipping: bool): Option<Progress> {
    var contentHash := env.hash(raw.payload);
    var knownId := UnchangedPropertyId(s.db, raw.portal, raw.externalId, contentHash);
    if skipping && knownId.Some? then Some(s.(ids := s.ids + [knownId.value]))
    else
      var n := env.normalizerOf(portal)(raw);
      if n.NormalizerError? then None
      else if n.property.None? then Some(s.(issues := s.issues + n.issues))
      else
        var p := n.property.value;
        if Rules.PricePerM2(env.lib, p).Failure? then None
        else Some(Progress(ListingUpserted(PropertyAdded(s.db, p, now), raw, p.id, contentHash),
                           s.ids + [p.id], s.added + 1, s.issues + n.issues))
  }

  function IngestedAll(
    env: Env, portal: string, db: Db, raws: seq<RawListing>, seenAt: nat -> Time, skipping: bool): Option<Progress> {
    if raws == [] then Some(Progress(db, [], 0, 0))
    else
      var n := |raws| - 1;
      match IngestedAll(env, portal, db, raws[..n], seenAt, skipping)
      case None => None
      case Some(s) => Ingested(env, portal, s, raws[n], seenAt(n), skipping)
  }

  datatype Resolution = Candidates(db: Db, ids: seq<PropertyId>) | Unavailable(message: string) | Raised

  function Resolved(env: Env, db: Db, job: Job, skipping: bool): Resolution {
    var cached := CacheGet(db, job.query.signature, job.now);
    if cached.Some? then Candidates(db, cached.value)
    else match job.fetched
      case ScraperError(message) => Unavailable(message)
      case Listings(raws) =>
        match IngestedAll(env, job.query.portal, db, raws, job.seenAt, skipping)
        case None => Raised
        case Some(s) =>
          Candidates(Recorded(CachePut(s.db, job.query.signature, s.ids, job.now, env.ttl),
                              Succeeded(job.query.portal, job.query.signature, |raws|, s.added, s.issues, job.now)),
                     s.ids)
  }

  function Loaded(db: Db, ids: seq<PropertyId>): seq<Rules.Property> {
    if ids == [] then []
    else
      Loaded(db, ids[..|ids| - 1])
      + if ids[|ids| - 1] in db.properties then [db.properties[ids[|ids| - 1]].property] else []
  }

  // ----- Evaluating and persisting

  function MatchStored(db: Db, alert: SearchAlert, p: Rules.Property, now: Time): Db {
    if (alert.id, p.id) in db.matches then db
    else AllEnqueued(MatchAdded(db, (alert.id, p.id), now), db.nextMatch, EnabledFor(db, alert.userId), now)
  }

  function MatchesStored(db: Db, alert: SearchAlert, ps: seq<Rules.Property>, now: Time): Db {
    if ps == [] then db else MatchStored(MatchesStored(db, alert, ps[..|ps| - 1], now), alert, ps[|ps| - 1], now)
  }

  function AlertHandled(env: Env, db: Db, alert: SearchAlert, candidates: seq<Rules.Property>, now: Time): Option<Db> {
    match Rules.Evaluate(env.lib, env.reg, alert.conditions, candidates)
    case Failure(_) => None
    case Success(found) => Some(AlertSaved(MatchesStored(db, alert, found, now), alert.(lastRunAt := Some(now))))
  }

  function AlertsHandled(
    env: Env, db: Db, alerts: seq<SearchAlert>, candidates: seq<Rules.Property>, now: Time): Option<Db> {
    if alerts == [] then Some(db)
    else
      match AlertsHandled(env, db, alerts[..|alerts| - 1], candidates, now)
      case None => None
      case Some(earlier) => AlertHandled(env, earlier, alerts[|alerts| - 1], candidates, now)
  }

  // ----- One worker's transaction

  datatype Outcome = Done(db: Db, ok: bool) | Crashed

  function OneRun(env: Env, db: Db, job: Job): Outcome {
    match Resolved(env, db, job, true)
    case Raised => Crashed
    case Unavailable(message) =>
      Done(Recorded(db, Failed(job.query.portal, job.query.signature, message, job.now)), false)
    case Candidates(after, ids) =>
      match AlertsHandled(env, after, job.query.alerts, Loaded(after, ids), job.now)
      case None => Crashed
      case Some(final) => Done(final, true)
  }

  /** The workers' transactions in some serial order. */
  function AllRun(env: Env, db: Db, jobs: seq<Job>): Outcome {
    if jobs == [] then Done(db, true)
    else
      match AllRun(env, db, jobs[..|jobs| - 1])
      case Crashed => Crashed
      case Done(earlier, _) => OneRun(env, earlier, jobs[|jobs| - 1])
  }

  /** What a worker commits; one that crashes rolls back. */
  function Committed(env: Env, db: Db, job: Job): Db {
    match OneRun(env, db, job)
    case Done(after, _) => after
    case Crashed => db
  }

  /** What all workers commit: those that do not crash go on whatever happens to the others. */
  function CommittedAll(env: Env, db: Db, jobs: seq<Job>): Db {
    if jobs == [] then db else Committed(env, CommittedAll(env, db, jobs[..|jobs| - 1]), jobs[|jobs| - 1])
  }

  /** How many workers commit a failed query. */
  function FailedIn(env: Env, db: Db, jobs: seq<Job>): nat {
    if jobs == [] then 0
    else
      var n := |jobs| - 1;
      var last := OneRun(env, CommittedAll(env, db, jobs[..n]), jobs[n]);
      FailedIn(env, db, jobs[..n]) + if last.Done? && !last.ok then 1 else 0
  }

  /** As long as no worker crashes, both readings of a cycle are the same. */
  lemma {:induction false} CycleCommitsAll(env: Env, db: Db, jobs: seq<Job>)
    requires AllRun(env, db, jobs).Done?
    ensures AllRun(env, db, jobs).db == CommittedAll(env, db, jobs)
  {
    hide OneRun;
    if jobs == [] {
    } else {
      CycleCommitsAll(env, db, jobs[..|jobs| - 1]);
    }
  }

  // ----- The use case

  datatype Report = Report(planned: nat, succeeded: nat, failed: nat, matchesCreated: int)

  class RunAlertCycle {
    const env: Env

    constructor (env: Env)
      ensures this.env == env
    {
      this.env := env;
    }

    method ResolveCandidates(uow: UnitOfWork, job: Job) returns (resolution: Resolution)
      modifies uow
      ensures resolution == Resolved(env, old(uow.db), job, true)
      ensures resolution.Candidates? ==> uow.db == resolution.db
      ensures resolution.Unavailable? ==> uow.db == old(uow.db)
    {
      hide Ingested, Recorded, CachePut;
      var cached := CacheGet(uow.db, job.query.signature, job.now);
      if cached.Some? {
        return Candidates(uow.db, cached.value);
      }
      if job.fetched.ScraperError? {
        return Unavailable(job.fetched.message);
      }
      var raws := job.fetched.listings;
      var ids: seq<PropertyId>, added, issues := [], 0, 0;
      ghost var start := uow.db;
      assert raws[..0] == [];
      for i := 0 to |raws|
        invariant IngestedAll(env, job.query.portal, start, raws[..i], job.seenAt, true)
               == Some(Progress(uow.db, ids, added, issues))
      {
        assert raws[..i + 1][..i] == raws[..i];
        var s := IngestOne(uow, job.query.portal, raws[i], job.seenAt(i), ids, added, issues);
        if s.None? {
          RaisedStays(env, job.query.portal, start, raws, job.seenAt, true, i + 1);
          return Raised;
        }
        ids, added, issues := s.value.ids, s.value.added, s.value.issues;
      }
      assert raws[..|raws|] == raws;
      uow.PutCache(job.query.signature, ids, job.now, env.ttl);
      uow.Record(Succeeded(job.query.portal, job.query.signature, |raws|, added, issues, job.now));
      resolution := Candidates(uow.db, ids);
    }

    /** The body of the loop over the raw listings. */
    method IngestOne(
      uow: UnitOfWork, portal: string, raw: RawListing, now: Time, ids: seq<PropertyId>, added: nat, issues: nat)
      returns (s: Option<Progress>)
      modifies uow
      ensures s == Ingested(env, portal, Progress(old(uow.db), ids, added, issues), raw, now, true)
      ensures s.Some? ==> uow.db == s.value.db
    {
      var contentHash := env.hash(raw.payload);
      var unchangedId := uow.FindUnchangedPropertyId(raw.portal, raw.externalId, contentHash);
      if unchangedId.Some? {
        return Some(Progress(uow.db, ids + [unchangedId.value], added, issues));
      }
      var result := env.normalizerOf(portal)(raw);
      if result.NormalizerError? {
        return None;
      }
      if result.property.None? {
        return Some(Progress(uow.db, ids, added, issues + result.issues));
      }
      var p := result.property.value;
      var stored := uow.AddProperty(env.lib, p, now);
      if !stored {
        return None;
      }
      uow.UpsertListing(raw, p.id, contentHash);
      s := Some(Progress(uow.db, ids + [p.id], added + 1, issues + result.issues));
    }

    method LoadCandidates(uow: UnitOfWork, ids: seq<PropertyId>) returns (candidates: seq<Rules.Property>)
      ensures candidates == Loaded(uow.db, ids)
    {
      candidates := [];
      for i := 0 to |ids|
        invariant candidates == Loaded(uow.db, ids[..i])
      {
        assert ids[..i + 1][..i] == ids[..i];
        if ids[i] in uow.db.properties {
          candidates := candidates + [uow.db.properties[ids[i]].property];
        }
      }
      assert ids[..|ids|] == ids;
    }

    /** Stores one match and enqueues its notifications, over the channels in any order. */
    method StoreMatch(uow: UnitOfWork, alert: SearchAlert, p: Rules.Property, now: Time) returns (isNew: bool)
      modifies uow
      ensures uow.db == MatchStored(old(uow.db), alert, p, now)
      ensures isNew == ((alert.id, p.id) !in old(uow.db).matches)
    {
      ghost var before := uow.db;
      var matchId := uow.AddIfNew((alert.id, p.id), now);
      if matchId.None? {
        return false;
      }
      ghost var added := uow.db;
      var channels := EnabledFor(uow.db, alert.userId);
      ghost var sent: set<nat> := {};
      while channels != {}
        invariant channels !! sent && channels + sent == EnabledFor(before, alert.userId)
        invariant uow.db == AllEnqueued(added, matchId.value, sent, now)
        decreases channels
      {
        var channel :| channel in channels;
        EnqueueOneMore(added, matchId.value, sent, channel, now);
        uow.Enqueue(matchId.value, channel, now);
        channels, sent := channels - {channel}, sent + {channel};
      }
      isNew := true;
    }

    method EvaluateAndPersist(uow: UnitOfWork, alerts: seq<SearchAlert>, candidates: seq<Rules.Property>, now: Time)
      returns (created: nat, raised: bool)
      modifies uow
      ensures raised == AlertsHandled(env, old(uow.db), alerts, candidates, now).None?
      ensures !raised ==>
                && AlertsHandled(env, old(uow.db), alerts, candidates, now) == Some(uow.db)
                && |uow.db.matches| == |old(uow.db).matches| + created
    {
      hide MatchStored, MatchesStored, AlertSaved, Rules.Evaluate;
      created := 0;
      ghost var start := uow.db;
      assert alerts[..0] == [];
      for i := 0 to |alerts|
        invariant AlertsHandled(env, start, alerts[..i], candidates, now) == Some(uow.db)
        invariant |uow.db.matches| == |start.matches| + created
      {
        assert alerts[..i + 1][..i] == alerts[..i];
        var found := Rules.Evaluate(env.lib, env.reg, alerts[i].conditions, candidates);
        if found.Failure? {
          FailureStays(env, start, alerts, candidates, now, i + 1);
          return created, true;
        }
        ghost var before := uow.db;
        var stored := StoreMatches(uow, alerts[i], found.value, now);
        created := created + stored;
        SavingKeepsMatches(uow.db, alerts[i].(lastRunAt := Some(now)));
        uow.SaveAlert(alerts[i].(lastRunAt := Some(now)));
      }
      assert alerts[..|alerts|] == alerts;
      raised := false;
    }

    method StoreMatches(
      uow: UnitOfWork, alert: SearchAlert, found: seq<Rules.Property>, now: Time)
      returns (created: nat)
      modifies uow
      ensures uow.db == MatchesStored(old(uow.db), alert, found, now)
      ensures |uow.db.matches| == |old(uow.db).matches| + created
    {
      hide MatchStored;
      created := 0;
      ghost var start := uow.db;
      assert found[..0] == [];
      for i := 0 to |found|
        invariant uow.db == MatchesStored(start, alert, found[..i], now)
        invariant |uow.db.matches| == |start.matches| + created
      {
        assert found[..i + 1][..i] == found[..i];
        OneMatchMore(uow.db, alert, found[i], now);
        var isNew := StoreMatch(uow, alert, found[i], now);
        if isNew {
          created := created + 1;
        }
      }
      assert found[..|found|] == found;
    }

    /** `_run_one`: what is committed, whether it succeeded, and how many matches it created. */
    method RunOne(committed: Db, job: Job) returns (outcome: Outcome, created: nat)
      ensures outcome == OneRun(env, committed, job)
      ensures outcome.Done? ==> |outcome.db.matches| == |committed.matches| + created
    {
      hide Loaded, AlertsHandled;
      var uow := new UnitOfWork(committed);
      var resolution := ResolveCandidates(uow, job);
      ResolvingKeepsMatches(env, committed, job, true);
      match resolution
      case Raised =>
        return Crashed, 0;
      case Unavailable(message) =>
        uow.Record(Failed(job.query.portal, job.query.signature, message, job.now));
        return Done(uow.db, false), 0;
      case Candidates(_, ids) =>
        var candidates := LoadCandidates(uow, ids);
        var count, raised := EvaluateAndPersist(uow, job.query.alerts, candidates, job.now);
        if raised {
          return Crashed, 0;
        }
        return Done(uow.db, true), count;
    }

    /** The workers one after another; there is no report when one of them crashes. */
    method Run(committed: Db, jobs: seq<Job>) returns (after: Db, report: Option<Report>)
      ensures after == CommittedAll(env, committed, jobs)
      ensures report.None? <==> AllRun(env, committed, jobs).Crashed?
      ensures report.Some? ==>
                && report.value.planned == |jobs| == report.value.succeeded + report.value.failed
                && report.value.failed == FailedIn(env, committed, jobs)
                && report.value.matchesCreated == |after.matches| - |committed.matches|
    {
      hide OneRun;
      var succeeded, failed, created, crashed := 0, 0, 0, false;
      after := committed;
      assert jobs[..0] == [];
      for i := 0 to |jobs|
        invariant after == CommittedAll(env, committed, jobs[..i])
        invariant crashed == AllRun(env, committed, jobs[..i]).Crashed?
        invariant !crashed ==>
                    && AllRun(env, committed, jobs[..i]).db == after
                    && succeeded + failed == i && failed == FailedIn(env, committed, jobs[..i])
                    && |after.matches| == |committed.matches| + created
      {
        assert jobs[..i + 1][..i] == jobs[..i];
        var outcome, count := RunOne(after, jobs[i]);
        if outcome.Crashed? {
          crashed := true;
        } else {
          after, created := outcome.db, created + count;
          if outcome.ok {
            succeeded := succeeded + 1;
          } else {
            failed := failed + 1;
          }
        }
      }
      assert jobs[..|jobs|] == jobs;
      report := if crashed then None else Some(Report(|jobs|, succeeded, failed, created));
    }
  }

  // ----- Helpers of the contracts above

  lemma EnqueueOneMore(db: Db, matchId: MatchId, sent: set<nat>, channel: nat, now: Time)
    requires channel !in sent
    ensures NotificationEnqueued(AllEnqueued(db, matchId, sent, now), matchId, channel, now)
            == AllEnqueued(db, matchId, sent + {channel}, now)
  {
    hide WithEntries, Entries;
    EntriesGrow(matchId, sent, channel);
    OneEntryMore(db.outbox, Entries(matchId, sent), (matchId, channel), now);
  }

  lemma EntriesGrow(matchId: MatchId, sent: set<nat>, channel: nat)
    ensures Entries(matchId, sent + {channel}) == Entries(matchId, sent) + {(matchId, channel)}
  {
  }

  lemma OneEntryMore(outbox: map<OutboxKey, Time>, keys: set<OutboxKey>, o: OutboxKey, now: Time)
    ensures WithEntries(outbox, keys + {o}, now)
            == var earlier := WithEntries(outbox, keys, now); if o in earlier then earlier else earlier[o := now]
  {
  }

  lemma OneMatchMore(db: Db, alert: SearchAlert, p: Rules.Property, now: Time)
    ensures |MatchStored(db, alert, p, now).matches| == |db.matches| + if (alert.id, p.id) in db.matches then 0 else 1
  {
  }

  lemma SavingKeepsMatches(db: Db, alert: SearchAlert)
    ensures AlertSaved(db, alert).matches == db.matches
  {
  }

  lemma {:induction false} RaisedStays(
    env: Env, portal: string, db: Db, raws: seq<RawListing>, seenAt: nat -> Time, skipping: bool, n: nat)
    requires n <= |raws| && IngestedAll(env, portal, db, raws[..n], seenAt, skipping).None?
    ensures IngestedAll(env, portal, db, raws, seenAt, skipping).None?
    decreases |raws|
  {
    hide Ingested;
    if n == |raws| {
      assert raws[..n] == raws;
    } else {
      assert raws[..|raws| - 1][..n] == raws[..n];
      RaisedStays(env, portal, db, raws[..|raws| - 1], seenAt, skipping, n);
    }
  }

  lemma {:induction false} FailureStays(
    env: Env, db: Db, alerts: seq<SearchAlert>, candidates: seq<Rules.Property>, now: Time, n: nat)
    requires n <= |alerts| && AlertsHandled(env, db, alerts[..n], candidates, now).None?
    ensures AlertsHandled(env, db, alerts, candidates, now).None?
    decreases |alerts|
  {
    hide AlertHandled;
    if n == |alerts| {
      assert alerts[..n] == alerts;
    } else {
      assert alerts[..|alerts| - 1][..n] == alerts[..n];
      FailureStays(env, db, alerts[..|alerts| - 1], candidates, now, n);
    }
  }

  lemma {:induction false} IngestingKeeps(
    env: Env, portal: string, db: Db, raws: seq<RawListing>, seenAt: nat -> Time, skipping: bool)
    requires IngestedAll(env, portal, db, raws, seenAt, skipping).Some?
    ensures var after := IngestedAll(env, portal, db, raws, seenAt, skipping).value.db;
            && after.matches == db.matches && after.outbox == db.outbox && after.nextMatch == db.nextMatch
            && after.alerts == db.alerts && after.channels == db.channels
            && after.cache == db.cache && after.executions == db.executions
  {
    if raws == [] {
    } else {
      var n := |raws| - 1;
      hide Ingested;
      IngestingKeeps(env, portal, db, raws[..n], seenAt, skipping);
      var s := IngestedAll(env, portal, db, raws[..n], seenAt, skipping).value;
      OneListingKeeps(env, portal, s, raws[n], seenAt(n), skipping);
    }
  }

  lemma OneListingKeeps(env: Env, portal: string, s: Progress, raw: RawListing, now: Time, skipping: bool)
    requires Ingested(env, portal, s, raw, now, skipping).Some?
    ensures var after := Ingested(env, portal, s, raw, now, skipping).value.db;
            && after.matches == s.db.matches && after.outbox == s.db.outbox && after.nextMatch == s.db.nextMatch
            && after.alerts == s.db.alerts && after.channels == s.db.channels
            && after.cache == s.db.cache && after.executions == s.db.executions
  {
    hide Rules.PricePerM2, UnchangedPropertyId, PropertyAdded, ListingUpserted;
    var n := env.normalizerOf(portal)(raw);
    if n.Normalized? && n.property.Some? {
      StoringKeeps(s.db, n.property.value, raw, env.hash(raw.payload), now);
    }
  }

  lemma StoringKeeps(db: Db, p: Rules.Property, raw: RawListing, contentHash: string, now: Time)
    ensures var after := ListingUpserted(PropertyAdded(db, p, now), raw, p.id, contentHash);
            && after.matches == db.matches && after.outbox == db.outbox && after.nextMatch == db.nextMatch
            && after.alerts == db.alerts && after.channels == db.channels
            && after.cache == db.cache && after.executions == db.executions
  {
    hide PriceChanged;
  }

  /** Resolving candidates touches neither matches nor outbox nor alerts. */
  lemma ResolvingKeepsMatches(env: Env, db: Db, job: Job, skipping: bool)
    ensures var r := Resolved(env, db, job, skipping);
            r.Candidates? ==>
              && r.db.matches == db.matches && r.db.outbox == db.outbox && r.db.nextMatch == db.nextMatch
              && r.db.alerts == db.alerts && r.db.channels == db.channels
  {
    hide IngestedAll;
    if job.fetched.Listings?
       && IngestedAll(env, job.query.portal, db, job.fetched.listings, job.seenAt, skipping).Some? {
      IngestingKeeps(env, job.query.portal, db, job.fetched.listings, job.seenAt, skipping);
    }
  }
}
