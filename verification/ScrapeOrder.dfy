/**
When the order of a cycle's workers decides which properties are stored: exactly when two of its queries
leave different versions of one listing.
*/
module ScrapeOrder {
  import opened Wrappers
  import opened Alerts
  import opened Tables
  import opened AlertCycle
  import opened CycleRefinement
  import opened Conservation
  import opened CycleOrder
  import Collections
  import Rules

  // ----- The last worker wins

  /** What a job leaves behind is what is stored when it comes last. */
  lemma LastJobWins(env: Env, start: Db, jobs: seq<Job>, last: Job, owner: nat -> nat, p: Rules.Property)
    requires CycleOk(env, start, jobs + [last], owner) && p in SettledBy(env, start, last)
    ensures var final := AllRun(env, start, jobs + [last]);
            && final.Done?
            && p.id in ContentsOf(final.db) && ContentsOf(final.db)[p.id] == p
  {
    hide CycleOk, AllRun, ContentsOf, Overlaid, AllSettled, AllHits, Settled;
    CycleEffect(env, start, jobs + [last], owner);
    DoneAndOneMore(env, start, jobs, last);
    OverlaidTwice(ContentsOf(start), AllSettled(env, start, jobs), SettledBy(env, start, last));
    SettledIsConsistent(Normals(env, ScrapedBy(start, last)));
    OverlaidAt(Overlaid(ContentsOf(start), AllSettled(env, start, jobs)), SettledBy(env, start, last), p.id);
  }

  /** Two serializations end with the same stored properties. */
  ghost predicate EndAlike(env: Env, start: Db, jobs: seq<Job>, other: seq<Job>) {
    && AllRun(env, start, jobs).Done? && AllRun(env, start, other).Done?
    && ContentsOf(AllRun(env, start, jobs).db) == ContentsOf(AllRun(env, start, other).db)
  }

  /** The job at k last. */
  function WithLast(jobs: seq<Job>, k: nat): seq<Job>
    requires k < |jobs|
  {
    jobs[..k] + jobs[k + 1..] + [jobs[k]]
  }

  lemma WithLastIsReordered(jobs: seq<Job>, k: nat)
    requires k < |jobs|
    ensures multiset(WithLast(jobs, k)) == multiset(jobs)
  {
    Collections.TakenOut(jobs, k);
  }

  /** With the job at k last, what it leaves behind is stored. */
  lemma StoredWhenLast(env: Env, start: Db, jobs: seq<Job>, k: nat, owner: nat -> nat, p: Rules.Property)
    requires CycleOk(env, start, jobs, owner) && k < |jobs| && p in SettledBy(env, start, jobs[k])
    ensures multiset(WithLast(jobs, k)) == multiset(jobs)
    ensures var final := AllRun(env, start, WithLast(jobs, k));
            final.Done? && p.id in ContentsOf(final.db) && ContentsOf(final.db)[p.id] == p
  {
    hide CycleOk, AllRun, ContentsOf, SettledBy;
    WithLastIsReordered(jobs, k);
    ReorderedCycleIsOk(env, start, jobs, WithLast(jobs, k), owner);
    LastJobWins(env, start, jobs[..k] + jobs[k + 1..], jobs[k], owner, p);
  }

  /**
  Order independence of the stored properties, exactly: all serializations of a cycle end alike if and
  only if no two of its queries leave different versions of one listing.
  */
  lemma AllOrdersEndAlikeIff(env: Env, start: Db, jobs: seq<Job>, owner: nat -> nat)
    requires CycleOk(env, start, jobs, owner)
    ensures ScrapesAgree(env, start, jobs)
            <==> forall other :: multiset(other) == multiset(jobs) ==> EndAlike(env, start, jobs, other)
  {
    hide CycleOk, AllRun, ContentsOf, SettledBy, SameResults;
    if ScrapesAgree(env, start, jobs) {
      forall other | multiset(other) == multiset(jobs)
        ensures EndAlike(env, start, jobs, other)
      {
        OrderDoesNotMatter(env, start, jobs, other, owner);
      }
    } else {
      var a, b, p, q :| a in jobs && b in jobs && p in SettledBy(env, start, a) && q in SettledBy(env, start, b)
                        && p.id == q.id && p != q;
      var i :| 0 <= i < |jobs| && jobs[i] == a;
      var j :| 0 <= j < |jobs| && jobs[j] == b;
      StoredWhenLast(env, start, jobs, i, owner, p);
      StoredWhenLast(env, start, jobs, j, owner, q);
      assert !(EndAlike(env, start, jobs, WithLast(jobs, i)) && EndAlike(env, start, jobs, WithLast(jobs, j)));
    }
  }

  // ----- In terms of listings

  /** Listings that two jobs of the cycle scrape carry the same payload in both. */
  ghost predicate SharedListingsAgree(start: Db, jobs: seq<Job>) {
    forall a, b, raw, other ::
      a in jobs && b in jobs && a != b && raw in ScrapedBy(start, a) && other in ScrapedBy(start, b)
      && SameListing(raw, other)
      ==> raw.payload == other.payload
  }

  /** What settles comes from a listing. */
  lemma SettledComes(env: Env, start: Db, job: Job, p: Rules.Property) returns (raw: RawListing)
    requires Tagged(job.query.portal, ScrapedBy(start, job)) && p in SettledBy(env, start, job)
    ensures raw in ScrapedBy(start, job) && PropertyFor(env, raw) == Some(p) && ':' !in raw.portal
  {
    hide Settled, Overlaid, PropertyFor, Normals;
    var ps := Normals(env, ScrapedBy(start, job));
    SettledMembers(ps, p);
    OverlaidOverMap(map[], ps, p.id);
    NormalsCome(env, ScrapedBy(start, job), p);
    raw :| raw in ScrapedBy(start, job) && PropertyFor(env, raw) == Some(p);
  }

  /** Equal payloads of shared listings are enough, however often one answer repeats a listing. */
  lemma EqualPayloadsAgree(env: Env, start: Db, jobs: seq<Job>)
    requires WellBehaved(env) && SharedListingsAgree(start, jobs)
    requires forall job :: job in jobs ==> Tagged(job.query.portal, ScrapedBy(start, job))
    ensures ScrapesAgree(env, start, jobs)
  {
    hide WellBehaved, ScrapedBy, PropertyFor, Settled, Normals, Tagged;
    forall a, b, p, q | a in jobs && b in jobs && p in SettledBy(env, start, a) && q in SettledBy(env, start, b)
                        && p.id == q.id
      ensures p == q
    {
      if a == b {
        SettledIsConsistent(Normals(env, ScrapedBy(start, a)));
      } else {
        var raw := SettledComes(env, start, a, p);
        var other := SettledComes(env, start, b, q);
        OneListingOneProperty(env, raw, other, p, q);
      }
    }
  }

  lemma OneListingOneProperty(env: Env, raw: RawListing, other: RawListing, p: Rules.Property, q: Rules.Property)
    requires WellBehaved(env) && ':' !in raw.portal && ':' !in other.portal
    requires PropertyFor(env, raw) == Some(p) && PropertyFor(env, other) == Some(q) && p.id == q.id
    ensures SameListing(raw, other) && (raw.payload == other.payload ==> p == q)
  {
    IdsTellListingsApart(env, (raw.portal, raw.externalId), (other.portal, other.externalId));
  }

  lemma OneListingSettles(env: Env, start: Db, job: Job, raw: RawListing, p: Rules.Property)
    requires ScrapedBy(start, job) == [raw] && PropertyFor(env, raw) == Some(p)
    ensures p in SettledBy(env, start, job)
  {
    hide PropertyFor, ScrapedBy, Settled;
    assert [raw][..0] == [];
    assert Normals(env, [raw]) == [p];
    OneOverlaid(map[], p);
    SettledMembers([p], p);
  }

  /** Two queries that scrape one listing with different properties: whoever commits last decides what is stored. */
  lemma LaterQueryDecides(
    env: Env, start: Db, a: Job, b: Job, raw: RawListing, other: RawListing, p: Rules.Property, q: Rules.Property,
    owner: nat -> nat)
    requires CycleOk(env, start, [a, b], owner) && p != q
    requires ScrapedBy(start, a) == [raw] && ScrapedBy(start, b) == [other] && SameListing(raw, other)
    requires PropertyFor(env, raw) == Some(p) && PropertyFor(env, other) == Some(q)
    ensures var ab, ba := AllRun(env, start, [a, b]), AllRun(env, start, [b, a]);
            && p.id == q.id && ab.Done? && ba.Done?
            && p.id in ContentsOf(ab.db) && ContentsOf(ab.db)[p.id] == q
            && p.id in ContentsOf(ba.db) && ContentsOf(ba.db)[p.id] == p
  {
    OneListingSettles(env, start, a, raw, p);
    OneListingSettles(env, start, b, other, q);
    assert p.id == q.id;
    hide CycleOk, AllRun, ContentsOf, SettledBy, ScrapedBy, PropertyFor;
    assert [a] + [b] == [a, b] && [b] + [a] == [b, a];
    ReorderedCycleIsOk(env, start, [a, b], [b, a], owner);
    LastJobWins(env, start, [a], b, owner, q);
    LastJobWins(env, start, [b], a, owner, p);
  }

  // ----- A query that reads from the cache what another one changes

  /** A cached query finds whatever is stored now under its ids. */
  lemma CachedCandidates(db: Db, ids: seq<PropertyId>, p: Rules.Property)
    requires p.id in ids && p.id in ContentsOf(db) && ContentsOf(db)[p.id] == p
    ensures p in Loaded(db, ids)
  {
    hide ContentsOf;
    LoadedByContents(db, ids);
    LookedMembers(ContentsOf(db), ids, p);
  }

  lemma {:induction false} HitsOfMember(
    env: Env, alerts: seq<SearchAlert>, candidates: seq<Rules.Property>, alert: SearchAlert, p: Rules.Property)
    requires alert in alerts && p in candidates && Rules.Meaning(env.lib, env.reg, alert.conditions, p)
    ensures (alert.id, p.id) in HitsOf(env, alerts, candidates)
  {
    hide Rules.Meaning;
    var n := |alerts| - 1;
    if alerts[n] != alert {
      HitsOfMember(env, alerts[..n], candidates, alert, p);
    }
  }

  /** Two queries of which the second one scrapes a version that the first one has not cached. */
  ghost predicate ReaderAndWriter(
    env: Env, start: Db, reader: Job, writer: Job, ids: seq<PropertyId>, p: Rules.Property, owner: nat -> nat)
  {
    && WellBehaved(env) && Inv(env, start) && MatchInv(start)
    && reader.query.signature != writer.query.signature
    && JobOk(env, start, reader, owner) && JobOk(env, start, writer, owner)
    && CacheGet(start, reader.query.signature, reader.now) == Some(ids)
    && p in SettledBy(env, start, writer) && p.id in ids
  }

  /** Two workers that go well together, one after the other. */
  lemma PairAlong(env: Env, start: Db, first: Job, second: Job, owner: nat -> nat)
    requires WellBehaved(env) && Inv(env, start) && MatchInv(start)
    requires JobOk(env, start, first, owner) && JobOk(env, start, second, owner)
    requires Fits(env, start, [], first) && Fits(env, start, [first], second)
    ensures var final := AllRun(env, start, [first, second]);
            final.Done? && Along(env, start, [first, second], final.db, owner)
  {
    hide Along, JobOk, OneRun, WellBehaved, Inv, MatchInv, Fits;
    assert [] + [first] == [first] && [first][..0] == [];
    assert [first] + [second] == [first, second] && [first, second][..1] == [first];
    StartAlong(env, start, owner);
    OneAfterOther(env, start, [], start, first, owner);
    assert AllRun(env, start, [first]) == OneRun(env, start, first);
    OneAfterOther(env, start, [first], OneRun(env, start, first).db, second, owner);
  }

  lemma PairHits(env: Env, start: Db, first: Job, second: Job)
    ensures AllHits(env, start, [first, second]) == JobHits(env, start, first) + JobHits(env, start, second)
  {
    hide JobHits, SettledBy;
    assert [] + [first] == [first] && [first] + [second] == [first, second];
    DoneAndOneMore(env, start, [first], second);
    DoneAndOneMore(env, start, [], first);
  }

  /** The reader first: both stand as seen from the start. */
  lemma ReaderFirst(
    env: Env, start: Db, reader: Job, writer: Job, ids: seq<PropertyId>, p: Rules.Property, owner: nat -> nat)
    requires ReaderAndWriter(env, start, reader, writer, ids, p, owner)
    ensures var final := AllRun(env, start, [reader, writer]);
            && final.Done?
            && final.db.matches.Keys
               == start.matches.Keys + JobHits(env, start, reader) + JobHits(env, start, writer)
  {
    hide Along, JobOk, AllRun, AllHits, WellBehaved, Inv, MatchInv, JobHits, SettledBy, Fits;
    WriterIsNotCached(env, start, writer, p);
    NothingScrapedYet(env, start, reader, writer);
    PairAlong(env, start, reader, writer, owner);
    AlongMatches(env, start, [reader, writer], AllRun(env, start, [reader, writer]).db, owner);
    PairHits(env, start, reader, writer);
  }

  lemma WriterIsNotCached(env: Env, start: Db, writer: Job, p: Rules.Property)
    requires p in SettledBy(env, start, writer)
    ensures !IsCached(start, writer)
  {
  }

  lemma NothingScrapedYet(env: Env, start: Db, reader: Job, writer: Job)
    requires IsCached(start, reader) && reader.query.signature != writer.query.signature
    ensures Fits(env, start, [], reader)
    ensures !IsCached(start, writer) ==> Fits(env, start, [reader], writer)
  {
  }

  lemma OneAfterOther(env: Env, start: Db, done: seq<Job>, db: Db, job: Job, owner: nat -> nat)
    requires WellBehaved(env) && Along(env, start, done, db, owner) && JobOk(env, start, job, owner)
    requires Fits(env, start, done, job)
    ensures OneRun(env, db, job).Done? && Along(env, start, done + [job], OneRun(env, db, job).db, owner)
  {
    OneJobAlong(env, start, done, db, job, owner);
  }

  lemma AlongMatches(env: Env, start: Db, done: seq<Job>, db: Db, owner: nat -> nat)
    requires Along(env, start, done, db, owner)
    ensures db.matches.Keys == start.matches.Keys + AllHits(env, start, done) && MatchInv(db)
    ensures ContentsOf(db) == Overlaid(ContentsOf(start), AllSettled(env, start, done))
  {
    hide Inv, ContentsOf, MatchInv;
  }

  /** The writer first: the reader evaluates the version that the writer has left. */
  lemma WriterFirst(
    env: Env, start: Db, reader: Job, writer: Job, ids: seq<PropertyId>, p: Rules.Property, owner: nat -> nat,
    alert: SearchAlert)
    requires ReaderAndWriter(env, start, reader, writer, ids, p, owner)
    requires alert in reader.query.alerts && Rules.Meaning(env.lib, env.reg, alert.conditions, p)
    ensures var final := AllRun(env, start, [writer, reader]);
            final.Done? ==> (alert.id, p.id) in final.db.matches
  {
    hide Along, JobOk, OneRun, WellBehaved, Inv, MatchInv, JobHits, SettledBy, IsCached, Loaded, Rules.Meaning;
    hide Overlaid, ContentsOf;
    assert [] + [writer] == [writer] && [writer][..0] == [];
    WriterIsNotCached(env, start, writer, p);
    StartAlong(env, start, owner);
    WriterFits(env, start, reader, writer);
    OneAfterOther(env, start, [], start, writer, owner);
    var after := OneRun(env, start, writer).db;
    assert [writer, reader][..1] == [writer];
    assert AllRun(env, start, [writer]) == OneRun(env, start, writer);
    AlongMatches(env, start, [writer], after, owner);
    OneSettled(env, start, writer);
    JobIsOwned(env, start, reader, owner);
    OverlaidAt(ContentsOf(start), SettledBy(env, start, writer), p.id);
    CachedCandidates(after, ids, p);
    ReaderFinds(env, start, writer, after, reader, ids, p, owner, alert);
  }

  lemma OneSettled(env: Env, start: Db, job: Job)
    ensures AllSettled(env, start, [job]) == SettledBy(env, start, job)
  {
    hide SettledBy;
    assert [job][..0] == [];
  }

  lemma JobIsOwned(env: Env, start: Db, job: Job, owner: nat -> nat)
    requires JobOk(env, start, job, owner)
    ensures forall a :: a in job.query.alerts ==> owner(a.id) == a.userId
  {
  }

  lemma WriterFits(env: Env, start: Db, reader: Job, writer: Job)
    requires !IsCached(start, writer)
    ensures Fits(env, start, [], writer) && Consistent(SettledBy(env, start, writer))
  {
    SettledIsConsistent(Normals(env, ScrapedBy(start, writer)));
  }

  /** A cached query only evaluates. */
  lemma CachedRun(env: Env, db: Db, job: Job, ids: seq<PropertyId>)
    requires CacheGet(db, job.query.signature, job.now) == Some(ids)
    ensures var final := AlertsHandled(env, db, job.query.alerts, Loaded(db, ids), job.now);
            OneRun(env, db, job) == if final.Some? then Done(final.value, true) else Crashed
  {
    hide Loaded, AlertsHandled, CacheGet;
  }

  lemma ReaderFinds(
    env: Env, start: Db, writer: Job, db: Db, reader: Job, ids: seq<PropertyId>, p: Rules.Property,
    owner: nat -> nat, alert: SearchAlert)
    requires MatchInv(db) && Along(env, start, [writer], db, owner)
    requires reader.query.signature != writer.query.signature
    requires CacheGet(start, reader.query.signature, reader.now) == Some(ids) && p in Loaded(db, ids)
    requires (forall a :: a in reader.query.alerts ==> owner(a.id) == a.userId) && alert in reader.query.alerts
    requires Rules.Meaning(env.lib, env.reg, alert.conditions, p)
    ensures OneRun(env, db, reader).Done? ==> (alert.id, p.id) in OneRun(env, db, reader).db.matches
  {
    hide Loaded, AlertsHandled, HitsOf, Inv, MatchInv, Evaluable, ContentsOf, Rules.Meaning, AllHits, AllSettled;
    hide Overlaid, Announced, Counted, CacheGet;
    SameCache(start, [writer], db, reader);
    CachedRun(env, db, reader, ids);
    EvaluationRaisesIff(env, db, reader.query.alerts, Loaded(db, ids), reader.now);
    if Evaluable(env, reader.query.alerts, Loaded(db, ids)) {
      AlertsHandledEffect(env, db, reader.query.alerts, Loaded(db, ids), reader.now, owner);
      HitsOfMember(env, reader.query.alerts, Loaded(db, ids), alert, p);
    }
  }

  /**
  Why cached queries have to stay true: when one query scrapes a new version of what another has cached,
  and an alert of the cached query matches the new version only, the match exists or not depending on
  which of the two commits first.
  */
  lemma CachedQueryDependsOnOrder(
    env: Env, start: Db, reader: Job, writer: Job, ids: seq<PropertyId>, p: Rules.Property, owner: nat -> nat,
    alert: SearchAlert)
    requires ReaderAndWriter(env, start, reader, writer, ids, p, owner)
    requires alert in reader.query.alerts && Rules.Meaning(env.lib, env.reg, alert.conditions, p)
    requires (alert.id, p.id) !in start.matches
    requires (alert.id, p.id) !in JobHits(env, start, reader) + JobHits(env, start, writer)
    ensures var first, last := AllRun(env, start, [reader, writer]), AllRun(env, start, [writer, reader]);
            && first.Done? && (alert.id, p.id) !in first.db.matches
            && (last.Done? ==> (alert.id, p.id) in last.db.matches)
  {
    hide AllRun, JobHits, ReaderAndWriter, Rules.Meaning;
    ReaderFirst(env, start, reader, writer, ids, p, owner);
    WriterFirst(env, start, reader, writer, ids, p, owner, alert);
  }
}
