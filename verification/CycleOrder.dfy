/**
What the order of a cycle's workers decides: whichever way their transactions are serialized, the same
matches and notifications result, and the same properties if no two queries leave different versions of
one listing.
*/
module CycleOrder {
  import opened Wrappers
  import opened Tables
  import opened AlertCycle
  import opened CycleRefinement
  import opened Conservation
  import Collections
  import Rules
  import Sums

  type Contents = map<PropertyId, Rules.Property>

  /** The stored properties without the times they were seen. */
  function ContentsOf(db: Db): (contents: Contents) {
    map id | id in db.properties :: db.properties[id].property
  }

  function Overlaid(contents: Contents, ps: seq<Rules.Property>): Contents {
    if ps == [] then contents
    else Overlaid(contents, ps[..|ps| - 1])[ps[|ps| - 1].id := ps[|ps| - 1]]
  }

  function Looked(contents: Contents, ids: seq<PropertyId>): seq<Rules.Property> {
    if ids == [] then []
    else
      Looked(contents, ids[..|ids| - 1])
      + if ids[|ids| - 1] in contents then [contents[ids[|ids| - 1]]] else []
  }

  function IdsOf(ps: seq<Rules.Property>): seq<PropertyId> {
    seq(|ps|, i requires 0 <= i < |ps| => ps[i].id)
  }

  function NormalOf(env: Env, raw: RawListing): seq<Rules.Property> {
    if PropertyFor(env, raw).Some? then [PropertyFor(env, raw).value] else []
  }

  /** The properties that listings normalize into, in order. */
  function Normals(env: Env, raws: seq<RawListing>): seq<Rules.Property> {
    if raws == [] then [] else Normals(env, raws[..|raws| - 1]) + NormalOf(env, raws[|raws| - 1])
  }

  // ----- Overlays

  ghost predicate Consistent(ps: seq<Rules.Property>) {
    forall p, q :: p in ps && q in ps && p.id == q.id ==> p == q
  }

  lemma {:induction false} OverlaidTwice(contents: Contents, ps: seq<Rules.Property>, qs: seq<Rules.Property>)
    ensures Overlaid(Overlaid(contents, ps), qs) == Overlaid(contents, ps + qs)
  {
    if qs == [] {
      assert ps + qs == ps;
    } else {
      OverlaidTwice(contents, ps, qs[..|qs| - 1]);
      assert (ps + qs)[..|ps + qs| - 1] == ps + qs[..|qs| - 1];
    }
  }

  /** What an overlay holds at one id. */
  lemma {:induction false} OverlaidAt(contents: Contents, ps: seq<Rules.Property>, id: PropertyId)
    requires Consistent(ps)
    ensures forall p :: p in ps && p.id == id ==> id in Overlaid(contents, ps) && Overlaid(contents, ps)[id] == p
    ensures (forall p :: p in ps ==> p.id != id) ==>
              && (id in Overlaid(contents, ps) <==> id in contents)
              && (id in contents ==> Overlaid(contents, ps)[id] == contents[id])
  {
    if ps == [] {
    } else {
      var n := |ps| - 1;
      OverlaidAt(contents, ps[..n], id);
      assert forall p :: p in ps <==> p in ps[..n] || p == ps[n];
    }
  }

  lemma OverlaidByMembers(contents: Contents, ps: seq<Rules.Property>, qs: seq<Rules.Property>)
    requires Consistent(ps) && Consistent(qs) && (forall p :: p in ps <==> p in qs)
    ensures Overlaid(contents, ps) == Overlaid(contents, qs)
  {
    var a, b := Overlaid(contents, ps), Overlaid(contents, qs);
    hide Overlaid;
    forall id
      ensures (id in a <==> id in b) && (id in a ==> a[id] == b[id])
    {
      OverlaidAt(contents, ps, id);
      OverlaidAt(contents, qs, id);
    }
  }

  lemma {:induction false} LoadedByContents(db: Db, ids: seq<PropertyId>)
    ensures Loaded(db, ids) == Looked(ContentsOf(db), ids)
  {
    if ids == [] {
    } else {
      LoadedByContents(db, ids[..|ids| - 1]);
    }
  }

  /** Each of some properties as the last one with its id is. */
  function Settled(ps: seq<Rules.Property>): seq<Rules.Property> {
    Looked(Overlaid(map[], ps), IdsOf(ps))
  }

  /** The last property with an id is what an overlay holds there. */
  lemma {:induction false} OverlaidOverMap(contents: Contents, ps: seq<Rules.Property>, id: PropertyId)
    ensures id in Overlaid(contents, ps) <==> id in Overlaid(map[], ps) || id in contents
    ensures id in Overlaid(contents, ps) ==>
              Overlaid(contents, ps)[id] == if id in Overlaid(map[], ps) then Overlaid(map[], ps)[id] else contents[id]
    ensures id in Overlaid(map[], ps) <==> id in IdsOf(ps)
    ensures id in Overlaid(map[], ps) ==> Overlaid(map[], ps)[id].id == id && Overlaid(map[], ps)[id] in ps
  {
    if ps == [] {
    } else {
      var n := |ps| - 1;
      OverlaidOverMap(contents, ps[..n], id);
      assert IdsOf(ps) == IdsOf(ps[..n]) + [ps[n].id];
    }
  }

  lemma {:induction false} LookedMembers(contents: Contents, ids: seq<PropertyId>, p: Rules.Property)
    ensures p in Looked(contents, ids) <==> exists id :: id in ids && id in contents && contents[id] == p
  {
    if ids == [] {
    } else {
      var n := |ids| - 1;
      LookedMembers(contents, ids[..n], p);
      assert forall id :: id in ids <==> id in ids[..n] || id == ids[n];
    }
  }

  /** What settles is one property per id: what the overlay holds. */
  lemma SettledMembers(ps: seq<Rules.Property>, p: Rules.Property)
    ensures p in Settled(ps) <==> p.id in Overlaid(map[], ps) && Overlaid(map[], ps)[p.id] == p
  {
    hide Overlaid, Looked, IdsOf;
    LookedMembers(Overlaid(map[], ps), IdsOf(ps), p);
    forall id
      ensures id in Overlaid(map[], ps) <==> id in IdsOf(ps)
      ensures id in Overlaid(map[], ps) ==> Overlaid(map[], ps)[id].id == id
    {
      OverlaidOverMap(map[], ps, id);
    }
  }

  lemma SettledIsConsistent(ps: seq<Rules.Property>)
    ensures Consistent(Settled(ps))
  {
    hide Settled, Overlaid;
    forall p
      ensures p in Settled(ps) <==> p.id in Overlaid(map[], ps) && Overlaid(map[], ps)[p.id] == p
    {
      SettledMembers(ps, p);
    }
  }

  /** Only the last versions matter to an overlay. */
  lemma OverlaidSettled(contents: Contents, ps: seq<Rules.Property>)
    ensures Overlaid(contents, Settled(ps)) == Overlaid(contents, ps)
  {
    hide Settled, Overlaid;
    SettledIsConsistent(ps);
    var a, b := Overlaid(contents, Settled(ps)), Overlaid(contents, ps);
    forall id
      ensures (id in a <==> id in b) && (id in a ==> a[id] == b[id])
    {
      OverlaidAt(contents, Settled(ps), id);
      OverlaidOverMap(contents, ps, id);
      forall p
        ensures p in Settled(ps) <==> p.id in Overlaid(map[], ps) && Overlaid(map[], ps)[p.id] == p
      {
        SettledMembers(ps, p);
      }
      if id in Overlaid(map[], ps) {
        OverlaidOverMap(map[], ps, id);
        assert Overlaid(map[], ps)[id] in Settled(ps);
      }
    }
  }

  /** Looking up what was just overlaid gives the last versions, whatever was there before. */
  lemma LookedOwn(contents: Contents, ps: seq<Rules.Property>)
    ensures Looked(Overlaid(contents, ps), IdsOf(ps)) == Settled(ps)
  {
    hide Overlaid, IdsOf;
    forall id | id in IdsOf(ps)
      ensures id in Overlaid(contents, ps) && id in Overlaid(map[], ps)
      ensures Overlaid(contents, ps)[id] == Overlaid(map[], ps)[id]
    {
      OverlaidOverMap(contents, ps, id);
    }
    hide Looked;
    LookedSame(Overlaid(contents, ps), Overlaid(map[], ps), IdsOf(ps));
  }

  lemma {:induction false} LookedSame(a: Contents, b: Contents, ids: seq<PropertyId>)
    requires forall id :: id in ids ==> (id in a <==> id in b) && (id in a ==> a[id] == b[id])
    ensures Looked(a, ids) == Looked(b, ids)
  {
    if ids == [] {
    } else {
      LookedSame(a, b, ids[..|ids| - 1]);
      assert ids[|ids| - 1] in ids;
    }
  }

  // ----- What one resolution does

  /** No listing makes its normalizer raise, and every property has a price per m² that can be stored. */
  ghost predicate Storable(env: Env, raws: seq<RawListing>) {
    && (forall raw :: raw in raws ==> env.normalizerOf(raw.portal)(raw).Normalized?)
    && (forall p :: p in Normals(env, raws) ==> Rules.PricePerM2(env.lib, p).Success?)
  }

  /** Skipped or stored, a listing leaves its own property's contents behind and hands out its id. */
  lemma IngestedEffect(env: Env, s: Progress, raw: RawListing, now: Time)
    requires WellBehaved(env) && Inv(env, s.db) && ':' !in raw.portal
    requires env.normalizerOf(raw.portal)(raw).Normalized?
    requires PropertyFor(env, raw).Some? ==> Rules.PricePerM2(env.lib, PropertyFor(env, raw).value).Success?
    ensures var r := Ingested(env, raw.portal, s, raw, now, true);
            && r.Some? && Inv(env, r.value.db)
            && ContentsOf(r.value.db) == Overlaid(ContentsOf(s.db), NormalOf(env, raw))
            && r.value.ids == s.ids + IdsOf(NormalOf(env, raw))
  {
    hide Inv, WellBehaved, Rules.PricePerM2, PropertyAdded, ListingUpserted, ContentsOf, Ingested,
      UnchangedPropertyId, Overlaid;
    var contentHash := env.hash(raw.payload);
    var made := PropertyFor(env, raw);
    IngestedByCase(env, s, raw, now, true);
    if UnchangedPropertyId(s.db, raw.portal, raw.externalId, contentHash).Some? {
      KnownContents(env, s.db, raw, now);
      OneOverlaid(ContentsOf(s.db), made.value);
    } else if made.Some? {
      StoringKeepsInv(env, s.db, raw, now);
      OneOverlaid(ContentsOf(s.db), made.value);
      AddedContents(s.db, made.value, raw, contentHash, now);
    } else {
      NothingOverlaid(ContentsOf(s.db));
    }
  }

  /** The property of an unchanged listing is stored as it is. */
  lemma KnownContents(env: Env, db: Db, raw: RawListing, now: Time)
    requires WellBehaved(env) && Inv(env, db)
    requires UnchangedPropertyId(db, raw.portal, raw.externalId, env.hash(raw.payload)).Some?
    ensures PropertyFor(env, raw).Some?
    ensures var p := PropertyFor(env, raw).value;
            && UnchangedPropertyId(db, raw.portal, raw.externalId, env.hash(raw.payload)) == Some(p.id)
            && ContentsOf(db)[p.id := p] == ContentsOf(db)
  {
    var key := (raw.portal, raw.externalId);
    assert RowIsCurrent(env, db, key);
    assert SameListing(AsRaw(key, db.listings[key]), raw);
  }

  lemma NothingOverlaid(contents: Contents)
    ensures Overlaid(contents, []) == contents
  {
  }

  lemma OneOverlaid(contents: Contents, p: Rules.Property)
    ensures Overlaid(contents, [p]) == contents[p.id := p]
  {
    assert [p][..0] == [];
  }

  lemma AddedContents(db: Db, p: Rules.Property, raw: RawListing, contentHash: string, now: Time)
    ensures ContentsOf(ListingUpserted(PropertyAdded(db, p, now), raw, p.id, contentHash)) == ContentsOf(db)[p.id := p]
  {
  }

  lemma {:induction false} IngestedAllEffect(
    env: Env, portal: string, db: Db, raws: seq<RawListing>, seenAt: nat -> Time)
    requires WellBehaved(env) && Inv(env, db) && Tagged(portal, raws) && Storable(env, raws)
    ensures var r := IngestedAll(env, portal, db, raws, seenAt, true);
            && r.Some? && Inv(env, r.value.db)
            && ContentsOf(r.value.db) == Overlaid(ContentsOf(db), Normals(env, raws))
            && r.value.ids == IdsOf(Normals(env, raws))
  {
    hide WellBehaved, Inv, Ingested, ContentsOf, PropertyFor, Rules.PricePerM2;
    if raws == [] {
    } else {
      var n := |raws| - 1;
      IngestedAllEffect(env, portal, db, raws[..n], seenAt);
      var earlier := Normals(env, raws[..n]);
      var s := IngestedAll(env, portal, db, raws[..n], seenAt, true).value;
      assert raws[n] in raws;
      if PropertyFor(env, raws[n]).Some? {
        var p := PropertyFor(env, raws[n]).value;
        assert NormalOf(env, raws[n])[0] == p;
        assert Normals(env, raws)[|earlier|] == p;
        assert p in Normals(env, raws);
      }
      IngestedEffect(env, s, raws[n], seenAt(n));
      OverlaidTwice(ContentsOf(db), earlier, NormalOf(env, raws[n]));
      assert IdsOf(earlier + NormalOf(env, raws[n])) == IdsOf(earlier) + IdsOf(NormalOf(env, raws[n]));
    }
  }

  // ----- What a job contributes, seen from the database the cycle starts with

  predicate IsCached(db: Db, job: Job) {
    CacheGet(db, job.query.signature, job.now).Some?
  }

  /** A query with nothing cached and no answer from its portal. */
  predicate IsUnanswered(start: Db, job: Job) {
    !IsCached(start, job) && job.fetched.ScraperError?
  }

  /** The listings that a job scrapes. */
  function ScrapedBy(db: Db, job: Job): seq<RawListing> {
    if IsCached(db, job) || job.fetched.ScraperError? then [] else job.fetched.listings
  }

  /** The properties that a job's scrape leaves behind: the last version of each listing. */
  ghost function SettledBy(env: Env, start: Db, job: Job): seq<Rules.Property> {
    Settled(Normals(env, ScrapedBy(start, job)))
  }

  ghost function CandidatesOf(env: Env, start: Db, job: Job): seq<Rules.Property> {
    if IsCached(start, job) then Loaded(start, CacheGet(start, job.query.signature, job.now).value)
    else SettledBy(env, start, job)
  }

  ghost function JobHits(env: Env, start: Db, job: Job): set<MatchKey> {
    if IsUnanswered(start, job) then {}
    else HitsOf(env, job.query.alerts, CandidatesOf(env, start, job))
  }

  ghost function AllHits(env: Env, start: Db, jobs: seq<Job>): set<MatchKey> {
    if jobs == [] then {}
    else AllHits(env, start, jobs[..|jobs| - 1]) + JobHits(env, start, jobs[|jobs| - 1])
  }

  ghost function AllSettled(env: Env, start: Db, jobs: seq<Job>): seq<Rules.Property> {
    if jobs == [] then []
    else AllSettled(env, start, jobs[..|jobs| - 1]) + SettledBy(env, start, jobs[|jobs| - 1])
  }

  /** A worker that neither the engine nor the store of properties takes down. */
  ghost predicate JobOk(env: Env, start: Db, job: Job, owner: nat -> nat) {
    && Tagged(job.query.portal, ScrapedBy(start, job))
    && Storable(env, ScrapedBy(start, job))
    && (forall a :: a in job.query.alerts ==> owner(a.id) == a.userId)
    && (!IsUnanswered(start, job) ==> Evaluable(env, job.query.alerts, CandidatesOf(env, start, job)))
  }

  /** No job leaves behind a changed version of what another one takes from the cache. */
  ghost predicate CacheStaysTrue(env: Env, start: Db, jobs: seq<Job>) {
    forall a, b, p ::
      a in jobs && b in jobs && IsCached(start, a) && p in SettledBy(env, start, b)
      && p.id in CacheGet(start, a.query.signature, a.now).value
      ==> p.id in start.properties && start.properties[p.id].property == p
  }

  /** The jobs of a plan: no two ask with one signature. */
  ghost predicate DistinctQueries(jobs: seq<Job>) {
    && (forall a, b :: a in jobs && b in jobs && a.query.signature == b.query.signature ==> a == b)
    && (forall a :: a in jobs ==> multiset(jobs)[a] == 1)
  }

  ghost predicate CycleOk(env: Env, start: Db, jobs: seq<Job>, owner: nat -> nat) {
    && WellBehaved(env) && Inv(env, start) && MatchInv(start)
    && (forall job :: job in jobs ==> JobOk(env, start, job, owner))
    && CacheStaysTrue(env, start, jobs) && DistinctQueries(jobs)
  }

  lemma {:induction false} NormalsCome(env: Env, raws: seq<RawListing>, p: Rules.Property)
    requires p in Normals(env, raws)
    ensures exists raw :: raw in raws && PropertyFor(env, raw) == Some(p)
  {
    var n := |raws| - 1;
    if p in Normals(env, raws[..n]) {
      NormalsCome(env, raws[..n], p);
    } else {
      assert p in NormalOf(env, raws[n]);
      assert raws[n] in raws;
    }
  }

  lemma {:induction false} AllSettledCome(env: Env, start: Db, jobs: seq<Job>, p: Rules.Property)
    ensures p in AllSettled(env, start, jobs) <==>
            exists job :: job in jobs && p in SettledBy(env, start, job)
  {
    hide SettledBy;
    if jobs == [] {
    } else {
      var n := |jobs| - 1;
      AllSettledCome(env, start, jobs[..n], p);
      assert forall job :: job in jobs <==> job in jobs[..n] || job == jobs[n];
    }
  }

  lemma {:induction false} AllHitsCome(env: Env, start: Db, jobs: seq<Job>, key: MatchKey)
    ensures key in AllHits(env, start, jobs) <==> exists job :: job in jobs && key in JobHits(env, start, job)
  {
    hide JobHits;
    if jobs == [] {
    } else {
      var n := |jobs| - 1;
      AllHitsCome(env, start, jobs[..n], key);
      assert forall job :: job in jobs <==> job in jobs[..n] || job == jobs[n];
    }
  }

  // ----- Along a cycle

  /** Where a cycle stands after some of its jobs. */
  ghost predicate Along(env: Env, start: Db, done: seq<Job>, db: Db, owner: nat -> nat) {
    && Inv(env, db)
    && ContentsOf(db) == Overlaid(ContentsOf(start), AllSettled(env, start, done))
    && UntouchedCache(start, done, db)
    && Stored(start, db, AllHits(env, start, done), owner)
  }

  ghost predicate UntouchedCache(start: Db, done: seq<Job>, db: Db) {
    forall signature: string :: (forall job :: job in done ==> job.query.signature != signature) ==>
      && (signature in db.cache <==> signature in start.cache)
      && (signature in start.cache ==> db.cache[signature] == start.cache[signature])
  }

  /** `after` is `before` once the job has its candidates. */
  ghost predicate Resolves(env: Env, start: Db, before: Db, job: Job, after: Db) {
    && Inv(env, after)
    && ContentsOf(after) == Overlaid(ContentsOf(before), SettledBy(env, start, job))
    && (forall signature :: signature != job.query.signature ==>
          && (signature in before.cache <==> signature in after.cache)
          && (signature in before.cache ==> after.cache[signature] == before.cache[signature]))
    && after.matches == before.matches && after.outbox == before.outbox
    && after.nextMatch == before.nextMatch && after.channels == before.channels
  }

  lemma ScrapingResolves(env: Env, start: Db, before: Db, job: Job)
    requires WellBehaved(env) && Inv(env, before)
    requires Tagged(job.query.portal, ScrapedBy(start, job)) && Storable(env, ScrapedBy(start, job))
    requires !IsCached(start, job) && !IsCached(before, job) && job.fetched.Listings?
    ensures var r := Resolved(env, before, job, true);
            && r.Candidates? && Resolves(env, start, before, job, r.db)
            && Loaded(r.db, r.ids) == CandidatesOf(env, start, job)
  {
    hide IngestedAll, Normals, WellBehaved, Evaluable, Storable, Tagged, Inv, ContentsOf, Consistent, Overlaid,
      Looked, Loaded, Resolved, IsCached, Settled;
    var raws := job.fetched.listings;
    ScrapedListings(start, job);
    IngestedAllEffect(env, job.query.portal, before, raws, job.seenAt);
    ScrapingCommits(env, before, job);
    var s := IngestedAll(env, job.query.portal, before, raws, job.seenAt, true).value;
    var r := Resolved(env, before, job, true);
    OnlyCacheAndLog(env, s.db, r.db);
    LoadedByContents(r.db, r.ids);
    OverlaidSettled(ContentsOf(before), Normals(env, raws));
    LookedOwn(ContentsOf(before), Normals(env, raws));
  }

  lemma ScrapedListings(start: Db, job: Job)
    requires !IsCached(start, job) && job.fetched.Listings?
    ensures ScrapedBy(start, job) == job.fetched.listings
  {
  }

  /** A scrape without an error leaves the ingested tables, with its own cache row and execution. */
  lemma ScrapingCommits(env: Env, before: Db, job: Job)
    requires !IsCached(before, job) && job.fetched.Listings?
    requires IngestedAll(env, job.query.portal, before, job.fetched.listings, job.seenAt, true).Some?
    ensures var s := IngestedAll(env, job.query.portal, before, job.fetched.listings, job.seenAt, true).value;
            var r := Resolved(env, before, job, true);
            && r.Candidates? && r.ids == s.ids
            && r.db.listings == s.db.listings && r.db.properties == s.db.properties
            && (forall signature :: signature != job.query.signature ==>
                  && (signature in before.cache <==> signature in r.db.cache)
                  && (signature in before.cache ==> r.db.cache[signature] == before.cache[signature]))
            && r.db.matches == before.matches && r.db.outbox == before.outbox
            && r.db.nextMatch == before.nextMatch && r.db.channels == before.channels
  {
    hide IngestedAll;
    IngestingKeeps(env, job.query.portal, before, job.fetched.listings, job.seenAt, true);
  }

  lemma OnlyCacheAndLog(env: Env, a: Db, b: Db)
    requires b.listings == a.listings && b.properties == a.properties && Inv(env, a)
    ensures Inv(env, b) && ContentsOf(b) == ContentsOf(a)
  {
    forall key | key in b.listings
      ensures RowIsCurrent(env, b, key)
    {
      assert RowIsCurrent(env, a, key);
    }
  }

  /** What comes from the cache is the same as at the start. */
  lemma CacheLoads(env: Env, start: Db, before: Db, ps: seq<Rules.Property>, ids: seq<PropertyId>)
    requires ContentsOf(before) == Overlaid(ContentsOf(start), ps)
    requires forall p :: p in ps && p.id in ids ==> p.id in start.properties && start.properties[p.id].property == p
    ensures Loaded(before, ids) == Loaded(start, ids)
  {
    LoadedByContents(before, ids);
    LoadedByContents(start, ids);
    var a, b := ContentsOf(before), ContentsOf(start);
    forall id | id in ids
      ensures (id in a <==> id in b) && (id in a ==> a[id] == b[id])
    {
      OverlaidOverMap(b, ps, id);
    }
    hide ContentsOf;
    LookedSame(a, b, ids);
  }

  /** Storing the hits of a job on top of those of the jobs before it. */
  lemma EvaluationStores(env: Env, start: Db, done: seq<Job>, before: Db, job: Job, resolved: Db, owner: nat -> nat)
    requires Stored(start, before, AllHits(env, start, done), owner) && JobOk(env, start, job, owner)
    requires Resolves(env, start, before, job, resolved) && !IsUnanswered(start, job)
    ensures var r := AlertsHandled(env, resolved, job.query.alerts, CandidatesOf(env, start, job), job.now);
            && r.Some? && Stored(start, r.value, AllHits(env, start, done) + JobHits(env, start, job), owner)
  {
    hide Stored, AlertsHandled, HitsOf, CandidatesOf, AllHits, Normals, Overlaid, ContentsOf, Inv, MatchInv,
      Evaluable, Storable, ScrapedBy, IsCached, Tagged;
    var hits := AllHits(env, start, done);
    StoredThenNothing(start, before, resolved, hits, owner);
    AlertsHandledEffect(env, resolved, job.query.alerts, CandidatesOf(env, start, job), job.now, owner);
    var final := AlertsHandled(env, resolved, job.query.alerts, CandidatesOf(env, start, job), job.now).value;
    StoredTwice(start, resolved, final, hits, JobHits(env, start, job), owner);
  }

  /** Evaluating a job's candidates completes its step. */
  lemma EvaluationAlong(env: Env, start: Db, done: seq<Job>, before: Db, job: Job, resolved: Db, owner: nat -> nat)
    requires Along(env, start, done, before, owner) && JobOk(env, start, job, owner)
    requires Resolves(env, start, before, job, resolved) && !IsUnanswered(start, job)
    ensures var r := AlertsHandled(env, resolved, job.query.alerts, CandidatesOf(env, start, job), job.now);
            && r.Some? && Along(env, start, done + [job], r.value, owner)
  {
    hide Stored, AlertsHandled, HitsOf, CandidatesOf, AllHits, AllSettled, Normals, Overlaid, ContentsOf, Inv,
      JobHits, JobOk, ScrapedBy, IsCached, UntouchedCache;
    EvaluationStores(env, start, done, before, job, resolved, owner);
    var final := AlertsHandled(env, resolved, job.query.alerts, CandidatesOf(env, start, job), job.now).value;
    EvaluationKeepsSources(env, resolved, job.query.alerts, CandidatesOf(env, start, job), job.now);
    SameSourcesSameInv(env, resolved, final);
    DoneAndOneMore(env, start, done, job);
    OverlaidTwice(ContentsOf(start), AllSettled(env, start, done), SettledBy(env, start, job));
    CacheStaysUntouched(start, done, before, job, final);
  }

  lemma CacheStaysUntouched(start: Db, done: seq<Job>, before: Db, job: Job, final: Db)
    requires UntouchedCache(start, done, before)
    requires forall signature :: signature != job.query.signature ==>
               && (signature in before.cache <==> signature in final.cache)
               && (signature in before.cache ==> final.cache[signature] == before.cache[signature])
    ensures UntouchedCache(start, done + [job], final)
  {
    forall signature: string | forall other :: other in done + [job] ==> other.query.signature != signature
      ensures signature in final.cache <==> signature in start.cache
      ensures signature in start.cache ==> final.cache[signature] == start.cache[signature]
    {
      assert job in done + [job];
      assert forall other :: other in done ==> other in done + [job];
    }
  }

  lemma SameSourcesSameInv(env: Env, a: Db, b: Db)
    requires SameSources(a, b) && Inv(env, a)
    ensures Inv(env, b) && ContentsOf(b) == ContentsOf(a) && b.cache == a.cache
  {
    forall key | key in b.listings
      ensures RowIsCurrent(env, b, key)
    {
      assert RowIsCurrent(env, a, key);
    }
  }

  lemma DoneAndOneMore(env: Env, start: Db, done: seq<Job>, job: Job)
    ensures AllHits(env, start, done + [job]) == AllHits(env, start, done) + JobHits(env, start, job)
    ensures AllSettled(env, start, done + [job]) == AllSettled(env, start, done) + SettledBy(env, start, job)
  {
    assert (done + [job])[..|done + [job]| - 1] == done;
  }

  lemma SameCache(start: Db, done: seq<Job>, db: Db, job: Job)
    requires UntouchedCache(start, done, db)
    requires forall other :: other in done ==> other.query.signature != job.query.signature
    ensures CacheGet(db, job.query.signature, job.now) == CacheGet(start, job.query.signature, job.now)
  {
  }

  /** What a job may assume of the jobs before it. */
  ghost predicate Fits(env: Env, start: Db, done: seq<Job>, job: Job) {
    && (forall other :: other in done ==> other.query.signature != job.query.signature)
    && (IsCached(start, job) ==>
          forall p :: p in AllSettled(env, start, done) && p.id in CacheGet(start, job.query.signature, job.now).value
                      ==> p.id in start.properties && start.properties[p.id].property == p)
  }

  lemma ResolutionAlong(env: Env, start: Db, done: seq<Job>, db: Db, job: Job, owner: nat -> nat)
    requires WellBehaved(env) && Along(env, start, done, db, owner)
    requires Tagged(job.query.portal, ScrapedBy(start, job)) && Storable(env, ScrapedBy(start, job))
    requires Fits(env, start, done, job) && !IsUnanswered(start, job)
    ensures var r := Resolved(env, db, job, true);
            && r.Candidates? && Resolves(env, start, db, job, r.db)
            && Loaded(r.db, r.ids) == CandidatesOf(env, start, job)
  {
    hide WellBehaved, Inv, ContentsOf, AllHits, Stored, AllSettled, SettledBy, Tagged, Storable, Overlaid, Loaded;
    hide CacheGet, UntouchedCache, ScrapedBy, Resolves, Resolved, CandidatesOf;
    SameCache(start, done, db, job);
    if IsCached(start, job) {
      CacheLoads(env, start, db, AllSettled(env, start, done), CacheGet(start, job.query.signature, job.now).value);
      CachedResolves(env, start, db, job);
    } else {
      ScrapingResolves(env, start, db, job);
    }
  }

  /** Candidates from the cache cost nothing. */
  lemma CachedResolves(env: Env, start: Db, db: Db, job: Job)
    requires Inv(env, db) && IsCached(start, job)
    requires CacheGet(db, job.query.signature, job.now) == CacheGet(start, job.query.signature, job.now)
    requires var ids := CacheGet(start, job.query.signature, job.now).value; Loaded(db, ids) == Loaded(start, ids)
    ensures var r := Resolved(env, db, job, true);
            && r.Candidates? && Resolves(env, start, db, job, r.db)
            && Loaded(r.db, r.ids) == CandidatesOf(env, start, job)
  {
    hide Inv, ContentsOf, SettledBy, Loaded, CacheGet;
    NothingScraped(env, start, job);
    NothingOverlaid(ContentsOf(db));
  }

  lemma NothingScraped(env: Env, start: Db, job: Job)
    requires IsCached(start, job) || job.fetched.ScraperError?
    ensures SettledBy(env, start, job) == []
  {
  }

  lemma OneJobAlong(env: Env, start: Db, done: seq<Job>, db: Db, job: Job, owner: nat -> nat)
    requires WellBehaved(env) && Along(env, start, done, db, owner) && JobOk(env, start, job, owner)
    requires Fits(env, start, done, job)
    ensures var r := OneRun(env, db, job);
            && r.Done? && Along(env, start, done + [job], r.db, owner)
  {
    hide Fits, Resolves, Along, Resolved, Loaded, CandidatesOf, WellBehaved, AlertsHandled, OneRun, IsCached,
      Tagged, Storable, Evaluable, ScrapedBy;
    if !IsUnanswered(start, job) {
      ResolutionAlong(env, start, done, db, job, owner);
      var r := Resolved(env, db, job, true);
      EvaluationAlong(env, start, done, db, job, r.db, owner);
      ResolvedThenEvaluated(env, db, job);
    } else {
      StillNotCached(env, start, done, db, job, owner);
      FailureAlong(env, start, done, db, job, owner);
    }
  }

  lemma ResolvedThenEvaluated(env: Env, db: Db, job: Job)
    requires Resolved(env, db, job, true).Candidates?
    ensures var r := Resolved(env, db, job, true);
            var after := AlertsHandled(env, r.db, job.query.alerts, Loaded(r.db, r.ids), job.now);
            after.Some? ==> OneRun(env, db, job) == Done(after.value, true)
  {
    hide Resolved, AlertsHandled, Loaded;
  }

  lemma StillNotCached(env: Env, start: Db, done: seq<Job>, db: Db, job: Job, owner: nat -> nat)
    requires Along(env, start, done, db, owner) && Fits(env, start, done, job) && !IsCached(start, job)
    ensures !IsCached(db, job)
  {
    hide Inv, Stored, ContentsOf, Overlaid, AllSettled, AllHits;
    SameCache(start, done, db, job);
  }

  /** A query that the portal does not answer adds one failed execution and nothing else. */
  lemma FailureOnlyRecords(env: Env, db: Db, job: Job)
    requires !IsCached(db, job) && job.fetched.ScraperError?
    ensures OneRun(env, db, job)
            == var failed := Failed(job.query.portal, job.query.signature, job.fetched.message, job.now);
               Done(db.(executions := db.executions + [failed]), false)
  {
  }

  lemma FailureAlong(env: Env, start: Db, done: seq<Job>, db: Db, job: Job, owner: nat -> nat)
    requires Along(env, start, done, db, owner) && !IsCached(start, job) && !IsCached(db, job)
    requires job.fetched.ScraperError?
    ensures OneRun(env, db, job).Done? && Along(env, start, done + [job], OneRun(env, db, job).db, owner)
  {
    hide Stored, MatchInv, AllHits, AllSettled, Normals, JobHits, Inv, ContentsOf, ScrapedBy, UntouchedCache, OneRun,
      Overlaid, IsCached;
    UnansweredAddsNothing(env, start, job);
    FailureOnlyRecords(env, db, job);
    var after := OneRun(env, db, job).db;
    OnlyCacheAndLog(env, db, after);
    StoredThenNothing(start, db, after, AllHits(env, start, done), owner);
    CacheStaysUntouched(start, done, db, job, after);
    DoneAndOneMore(env, start, done, job);
    assert AllHits(env, start, done) + {} == AllHits(env, start, done);
    assert AllSettled(env, start, done) + [] == AllSettled(env, start, done);
  }

  lemma UnansweredAddsNothing(env: Env, start: Db, job: Job)
    requires !IsCached(start, job) && job.fetched.ScraperError?
    ensures SettledBy(env, start, job) == [] && JobHits(env, start, job) == {}
  {
  }

  lemma EarlierJobsAreOthers(jobs: seq<Job>, n: nat)
    requires DistinctQueries(jobs) && n < |jobs|
    ensures forall other :: other in jobs[..n] ==> other in jobs && other.query.signature != jobs[n].query.signature
  {
    forall other | other in jobs[..n]
      ensures other in jobs && other.query.signature != jobs[n].query.signature
    {
      assert jobs == jobs[..n] + jobs[n..];
      assert multiset(jobs)[other] == multiset(jobs[..n])[other] + multiset(jobs[n..])[other];
      assert jobs[n] == jobs[n..][0] && jobs[n] in jobs[n..];
      assert other in jobs && jobs[n] in jobs;
    }
  }

  lemma EarlierJobsFit(env: Env, start: Db, jobs: seq<Job>, n: nat, owner: nat -> nat)
    requires CycleOk(env, start, jobs, owner) && n < |jobs|
    ensures Fits(env, start, jobs[..n], jobs[n])
  {
    hide WellBehaved, Inv, MatchInv, JobOk, SettledBy, CacheGet, AllSettled, DistinctQueries;
    assert jobs[n] in jobs;
    EarlierJobsAreOthers(jobs, n);
    forall p | p in AllSettled(env, start, jobs[..n])
      ensures exists other :: other in jobs && p in SettledBy(env, start, other)
    {
      AllSettledCome(env, start, jobs[..n], p);
    }
  }

  lemma {:induction false} CycleAlong(env: Env, start: Db, jobs: seq<Job>, n: nat, owner: nat -> nat)
    requires CycleOk(env, start, jobs, owner) && n <= |jobs|
    ensures AllRun(env, start, jobs[..n]).Done?
    ensures Along(env, start, jobs[..n], AllRun(env, start, jobs[..n]).db, owner)
  {
    hide Fits, JobOk, Along, OneRun, WellBehaved, Inv, MatchInv, CacheStaysTrue, DistinctQueries;
    if n == 0 {
      StartAlong(env, start, owner);
    } else {
      var earlier, job := jobs[..n - 1], jobs[n - 1];
      assert job in jobs && jobs[..n][..n - 1] == earlier && earlier + [job] == jobs[..n];
      CycleAlong(env, start, jobs, n - 1, owner);
      EarlierJobsFit(env, start, jobs, n - 1, owner);
      OneJobAlong(env, start, earlier, AllRun(env, start, earlier).db, job, owner);
    }
  }

  lemma StartAlong(env: Env, start: Db, owner: nat -> nat)
    requires Inv(env, start) && MatchInv(start)
    ensures Along(env, start, [], start, owner)
  {
    hide Stored, Inv, MatchInv, ContentsOf;
    NothingStored(start, start, owner);
  }

  /**
  What a cycle does, without running it: no worker crashes; the stored properties are the scraped ones
  in the order of the workers over the old ones; the new matches are the hits of every job on its own
  candidates, seen from the start; and each new match is announced once on every enabled channel of its
  owner.
  */
  lemma CycleEffect(env: Env, start: Db, jobs: seq<Job>, owner: nat -> nat)
    requires CycleOk(env, start, jobs, owner)
    ensures AllRun(env, start, jobs).Done?
    ensures var final, newKeys := AllRun(env, start, jobs).db, NewKeys(start, AllHits(env, start, jobs));
            && ContentsOf(final) == Overlaid(ContentsOf(start), AllSettled(env, start, jobs))
            && final.matches.Keys == start.matches.Keys + AllHits(env, start, jobs)
            && (forall k :: k in start.matches ==> final.matches[k] == start.matches[k])
            && |final.matches| == |start.matches| + |newKeys|
            && Notified(final) == Notified(start) + Notices(start, newKeys, owner)
            && |final.outbox| == |start.outbox| + Sums.Sum(newKeys, ChannelCount(start, owner))
            && Inv(env, final) && MatchInv(final)
  {
    assert jobs[..|jobs|] == jobs;
    CycleAlong(env, start, jobs, |jobs|, owner);
    hide CycleOk, AllRun, AllHits, AllSettled, NewKeys, ContentsOf, Overlaid, Notified, Notices, ChannelCount, Inv,
      MatchInv, UntouchedCache;
    KeysCount(start, AllRun(env, start, jobs).db, AllHits(env, start, jobs));
  }

  /**
  Order independence: two serializations of the same planned queries end with the same matches, the same
  (match, channel) notifications and as many created matches, whatever listings the queries share.
  */
  lemma OrderDoesNotMatter(env: Env, start: Db, jobs: seq<Job>, other: seq<Job>, owner: nat -> nat)
    requires CycleOk(env, start, jobs, owner) && multiset(jobs) == multiset(other)
    ensures AllRun(env, start, jobs).Done? && AllRun(env, start, other).Done?
    ensures var a, b := AllRun(env, start, jobs).db, AllRun(env, start, other).db;
            && SameResults(a, b)
            && (ScrapesAgree(env, start, jobs) ==> ContentsOf(a) == ContentsOf(b))
  {
    hide AllRun, AllHits, ContentsOf, AllSettled, Notified, Notices, CycleOk, Overlaid, JobHits, ScrapesAgree;
    Collections.SameMembers(jobs, other);
    ReorderedCycleIsOk(env, start, jobs, other, owner);
    CycleEffect(env, start, jobs, owner);
    CycleEffect(env, start, other, owner);
    SameHits(env, start, jobs, other);
    if ScrapesAgree(env, start, jobs) {
      SameContents(env, start, jobs, other);
    }
  }

  /** The same matches and notifications, but for ids and times. */
  ghost predicate SameResults(a: Db, b: Db) {
    && a.matches.Keys == b.matches.Keys
    && |a.matches| == |b.matches|
    && Notified(a) == Notified(b)
    && |a.outbox| == |b.outbox|
  }

  /** No two jobs leave different versions of one listing. */
  ghost predicate ScrapesAgree(env: Env, start: Db, jobs: seq<Job>) {
    forall a, b, p, q ::
      a in jobs && b in jobs && p in SettledBy(env, start, a) && q in SettledBy(env, start, b) && p.id == q.id
      ==> p == q
  }

  lemma ReorderedCycleIsOk(env: Env, start: Db, jobs: seq<Job>, other: seq<Job>, owner: nat -> nat)
    requires CycleOk(env, start, jobs, owner) && multiset(jobs) == multiset(other)
    ensures CycleOk(env, start, other, owner)
  {
    hide WellBehaved, Inv, MatchInv, JobOk, SettledBy;
    Collections.SameMembers(jobs, other);
  }

  lemma SameHits(env: Env, start: Db, jobs: seq<Job>, other: seq<Job>)
    requires forall job :: !IsUnanswered(start, job) ==> (job in jobs <==> job in other)
    ensures AllHits(env, start, jobs) == AllHits(env, start, other)
  {
    hide AllHits, JobHits, SettledBy, IsCached;
    forall job | IsUnanswered(start, job)
      ensures JobHits(env, start, job) == {}
    {
      UnansweredAddsNothing(env, start, job);
    }
    hide IsUnanswered;
    forall key
      ensures key in AllHits(env, start, jobs) <==> key in AllHits(env, start, other)
    {
      AllHitsCome(env, start, jobs, key);
      AllHitsCome(env, start, other, key);
    }
  }

  lemma SameContents(env: Env, start: Db, jobs: seq<Job>, other: seq<Job>)
    requires ScrapesAgree(env, start, jobs) && forall job :: job in jobs <==> job in other
    ensures Overlaid(ContentsOf(start), AllSettled(env, start, jobs))
            == Overlaid(ContentsOf(start), AllSettled(env, start, other))
  {
    hide AllSettled, SettledBy, ContentsOf;
    forall p
      ensures p in AllSettled(env, start, jobs) <==> exists job :: job in jobs && p in SettledBy(env, start, job)
      ensures p in AllSettled(env, start, other) <==> p in AllSettled(env, start, jobs)
    {
      AllSettledCome(env, start, jobs, p);
      AllSettledCome(env, start, other, p);
    }
    OverlaidByMembers(ContentsOf(start), AllSettled(env, start, jobs), AllSettled(env, start, other));
  }

  /**
  A failed query is isolated: a cycle in which some portals do not answer creates the matches and
  notifications of the answered queries alone, and when the answered ones come in the same order, stores
  the same properties.
  */
  lemma FailuresAreIsolated(env: Env, start: Db, jobs: seq<Job>, owner: nat -> nat)
    requires CycleOk(env, start, jobs, owner)
    ensures var answered := Answered(start, jobs);
            && AllRun(env, start, jobs).Done? && AllRun(env, start, answered).Done?
            && SameResults(AllRun(env, start, jobs).db, AllRun(env, start, answered).db)
            && ContentsOf(AllRun(env, start, jobs).db) == ContentsOf(AllRun(env, start, answered).db)
  {
    hide CycleOk, IsUnanswered, AllRun, ContentsOf, Overlaid, AllSettled, AllHits, Notified, Notices, Answered;
    AnsweredCycleIsOk(env, start, jobs, owner);
    CycleEffect(env, start, jobs, owner);
    CycleEffect(env, start, Answered(start, jobs), owner);
    AnsweredHits(env, start, jobs);
    AnsweredSettles(env, start, jobs);
  }

  lemma AnsweredHits(env: Env, start: Db, jobs: seq<Job>)
    ensures AllHits(env, start, Answered(start, jobs)) == AllHits(env, start, jobs)
  {
    hide IsUnanswered, AllHits, Answered;
    forall job
      ensures job in Answered(start, jobs) <==> job in jobs && !IsUnanswered(start, job)
    {
      AnsweredMembers(start, jobs, job);
    }
    SameHits(env, start, jobs, Answered(start, jobs));
  }

  /** The jobs whose portal answers, or that are cached, in order. */
  function Answered(start: Db, jobs: seq<Job>): seq<Job> {
    if jobs == [] then []
    else
      var n := |jobs| - 1;
      Answered(start, jobs[..n]) + if IsUnanswered(start, jobs[n]) then [] else [jobs[n]]
  }

  lemma {:induction false} AnsweredMembers(start: Db, jobs: seq<Job>, job: Job)
    ensures multiset(Answered(start, jobs))[job] == if IsUnanswered(start, job) then 0 else multiset(jobs)[job]
    ensures job in Answered(start, jobs) <==> job in jobs && !IsUnanswered(start, job)
  {
    hide IsUnanswered;
    if jobs == [] {
    } else {
      var n := |jobs| - 1;
      AnsweredMembers(start, jobs[..n], job);
      assert jobs == jobs[..n] + [jobs[n]];
    }
  }

  lemma {:induction false} AnsweredSettles(env: Env, start: Db, jobs: seq<Job>)
    ensures AllSettled(env, start, Answered(start, jobs)) == AllSettled(env, start, jobs)
  {
    hide SettledBy, JobHits, IsCached;
    if jobs == [] {
    } else {
      var n := |jobs| - 1;
      AnsweredSettles(env, start, jobs[..n]);
      if IsUnanswered(start, jobs[n]) {
        UnansweredAddsNothing(env, start, jobs[n]);
        assert Answered(start, jobs) == Answered(start, jobs[..n]);
      } else {
        DoneAndOneMore(env, start, Answered(start, jobs[..n]), jobs[n]);
      }
    }
  }

  lemma AnsweredCycleIsOk(env: Env, start: Db, jobs: seq<Job>, owner: nat -> nat)
    requires CycleOk(env, start, jobs, owner)
    ensures CycleOk(env, start, Answered(start, jobs), owner)
  {
    hide WellBehaved, Inv, MatchInv, JobOk, SettledBy, Answered, IsUnanswered, CacheGet;
    forall job
      ensures multiset(Answered(start, jobs))[job] == if IsUnanswered(start, job) then 0 else multiset(jobs)[job]
      ensures job in Answered(start, jobs) <==> job in jobs && !IsUnanswered(start, job)
    {
      AnsweredMembers(start, jobs, job);
    }
  }
}
