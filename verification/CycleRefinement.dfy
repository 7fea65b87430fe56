/**
The hash skip refines normalizing everything: over any sequence of resolutions, the pipeline that
skips unchanged listings and the reference that normalizes every listing keep the same properties,
price history and cache, and hand out the same property ids.
*/
module CycleRefinement {
  import opened Wrappers
  import opened Tables
  import opened AlertCycle
  import Rules
  import Texts
  import Decimals

  /** The property that a listing is normalized into by its own portal's normalizer. */
  function PropertyFor(env: Env, raw: RawListing): Option<Rules.Property> {
    match env.normalizerOf(raw.portal)(raw)
    case Normalized(property, _) => property
    case NormalizerError => None
  }

  /** `f"{portal}:{external_id}"` under uuid5. */
  function IdFor(env: Env, portal: string, externalId: string): PropertyId {
    env.uuid5(portal + [':'] + externalId)
  }

  /**
  What the theorems assume of the inputs: the digest and uuid5 are injective, and the normalizers are
  steady.
  */
  ghost predicate WellBehaved(env: Env) {
    && (forall a, b :: env.hash(a) == env.hash(b) ==> a == b)
    && (forall a, b :: env.uuid5(a) == env.uuid5(b) ==> a == b)
    && Steady(env)
  }

  /**
  A normalizer looks at portal, external id and payload only, and gives its property the id of its
  listing.
  */
  ghost predicate Steady(env: Env) {
    && (forall a, b :: SameListing(a, b) && a.payload == b.payload ==>
          env.normalizerOf(a.portal)(a) == env.normalizerOf(b.portal)(b))
    && (forall raw :: PropertyFor(env, raw).Some? ==>
          PropertyFor(env, raw).value.id == IdFor(env, raw.portal, raw.externalId))
  }

  predicate SameListing(a: RawListing, b: RawListing) {
    a.portal == b.portal && a.externalId == b.externalId
  }

  /** A stored listing seen as a raw one again. */
  function AsRaw(key: ListingKey, row: ListingRow): RawListing {
    RawListing(key.0, key.1, row.url, row.scrapedAt, row.payload)
  }

  /** A listing row's payload, its digest and the stored property belong together. */
  ghost predicate RowIsCurrent(env: Env, db: Db, key: ListingKey)
    requires key in db.listings
  {
    var row := db.listings[key];
    && ':' !in key.0
    && row.contentHash == env.hash(row.payload)
    && PropertyFor(env, AsRaw(key, row)).Some?
    && var p := PropertyFor(env, AsRaw(key, row)).value;
       && row.propertyId == p.id
       && p.id in db.properties && db.properties[p.id].property == p
       && Rules.PricePerM2(env.lib, p).Success?
  }

  ghost predicate Inv(env: Env, db: Db) {
    forall key :: key in db.listings ==> RowIsCurrent(env, db, key)
  }

  /** Equal but for url, scraped_at, last_seen_at and the execution log. */
  ghost predicate Agree(a: Db, b: Db) {
    && a.listings.Keys == b.listings.Keys
    && (forall key :: key in a.listings ==> SameRow(a.listings[key], b.listings[key]))
    && a.properties.Keys == b.properties.Keys
    && (forall id :: id in a.properties ==> SameProperty(a.properties[id], b.properties[id]))
    && a.prices == b.prices
    && a.cache == b.cache
  }

  predicate SameRow(a: ListingRow, b: ListingRow) {
    a.propertyId == b.propertyId && a.payload == b.payload && a.contentHash == b.contentHash
  }

  predicate SameProperty(a: PropertyRow, b: PropertyRow) {
    a.property == b.property && a.firstSeenAt == b.firstSeenAt
  }

  lemma IdsTellListingsApart(env: Env, a: ListingKey, b: ListingKey)
    requires WellBehaved(env) && ':' !in a.0 && ':' !in b.0
    ensures IdFor(env, a.0, a.1) == IdFor(env, b.0, b.1) <==> a == b
  {
    if IdFor(env, a.0, a.1) == IdFor(env, b.0, b.1) {
      Texts.PartitionAt(a.0, ':', a.1);
      Texts.PartitionAt(b.0, ':', b.1);
    }
  }

  /** Storing a listing's property and row keeps the rows of all listings current. */
  lemma StoringKeepsInv(env: Env, db: Db, raw: RawListing, now: Time)
    requires WellBehaved(env) && Inv(env, db) && ':' !in raw.portal && PropertyFor(env, raw).Some?
    requires Rules.PricePerM2(env.lib, PropertyFor(env, raw).value).Success?
    ensures var p := PropertyFor(env, raw).value;
            Inv(env, ListingUpserted(PropertyAdded(db, p, now), raw, p.id, env.hash(raw.payload)))
  {
    var p := PropertyFor(env, raw).value;
    var after := ListingUpserted(PropertyAdded(db, p, now), raw, p.id, env.hash(raw.payload));
    var own := (raw.portal, raw.externalId);
    forall key | key in after.listings
      ensures RowIsCurrent(env, after, key)
    {
      if key == own {
        assert SameListing(AsRaw(key, after.listings[key]), raw);
      } else {
        assert RowIsCurrent(env, db, key);
        IdsTellListingsApart(env, key, own);
      }
    }
  }

  /** Normalizing an unchanged listing again writes nothing that agreement can see. */
  lemma RenormalizingChangesNothing(env: Env, db: Db, raw: RawListing, now: Time)
    requires WellBehaved(env) && Inv(env, db)
    requires UnchangedPropertyId(db, raw.portal, raw.externalId, env.hash(raw.payload)).Some?
    ensures PropertyFor(env, raw).Some?
    ensures var p := PropertyFor(env, raw).value;
            && UnchangedPropertyId(db, raw.portal, raw.externalId, env.hash(raw.payload)) == Some(p.id)
            && Rules.PricePerM2(env.lib, p).Success?
            && Agree(db, ListingUpserted(PropertyAdded(db, p, now), raw, p.id, env.hash(raw.payload)))
  {
    hide Rules.PricePerM2, Agree, PropertyAdded, ListingUpserted;
    var key := (raw.portal, raw.externalId);
    assert RowIsCurrent(env, db, key);
    assert SameListing(AsRaw(key, db.listings[key]), raw);
    StoringTheSame(db, PropertyFor(env, raw).value, raw, env.hash(raw.payload), now);
  }

  lemma StoringTheSame(db: Db, p: Rules.Property, raw: RawListing, contentHash: string, now: Time)
    requires (raw.portal, raw.externalId) in db.listings
    requires var row := db.listings[(raw.portal, raw.externalId)];
             row.propertyId == p.id && row.payload == raw.payload && row.contentHash == contentHash
    requires p.id in db.properties && db.properties[p.id].property == p
    ensures Agree(db, ListingUpserted(PropertyAdded(db, p, now), raw, p.id, contentHash))
  {
    hide Decimals.Value;
  }

  /** The same listing stored in two agreeing databases leaves them in agreement. */
  lemma StoringKeepsAgreement(a: Db, b: Db, p: Rules.Property, raw: RawListing, contentHash: string, now: Time)
    requires Agree(a, b)
    ensures Agree(ListingUpserted(PropertyAdded(a, p, now), raw, p.id, contentHash),
                  ListingUpserted(PropertyAdded(b, p, now), raw, p.id, contentHash))
  {
    hide Decimals.Value;
  }

  lemma AgreeIsTransitive(a: Db, b: Db, c: Db)
    requires Agree(a, b) && Agree(b, c)
    ensures Agree(a, c)
  {
  }

  /** The two pipelines stand at the same point. */
  ghost predicate InStep(env: Env, fast: Option<Progress>, slow: Option<Progress>) {
    match (fast, slow)
    case (None, None) => true
    case (Some(f), Some(s)) => Agree(f.db, s.db) && f.ids == s.ids && Inv(env, f.db) && Inv(env, s.db)
    case _ => false
  }

  lemma AgreeOnUnchanged(a: Db, b: Db, portal: string, externalId: string, contentHash: string)
    requires Agree(a, b)
    ensures UnchangedPropertyId(a, portal, externalId, contentHash)
            == UnchangedPropertyId(b, portal, externalId, contentHash)
  {
    var key := (portal, externalId);
    assert key in a.listings ==> SameRow(a.listings[key], b.listings[key]);
  }

  /** The fast pipeline skips: what the slow one writes then cannot be seen. */
  lemma SkippedStaysInStep(env: Env, fast: Progress, slow: Progress, raw: RawListing, now: Time)
    requires WellBehaved(env) && ':' !in raw.portal && InStep(env, Some(fast), Some(slow))
    requires UnchangedPropertyId(slow.db, raw.portal, raw.externalId, env.hash(raw.payload)).Some?
    ensures PropertyFor(env, raw).Some?
    ensures var id, p :=
              UnchangedPropertyId(slow.db, raw.portal, raw.externalId, env.hash(raw.payload)).value,
              PropertyFor(env, raw).value;
            && id == p.id && Rules.PricePerM2(env.lib, p).Success?
            && InStep(env, Some(fast.(ids := fast.ids + [id])),
                      Some(Progress(ListingUpserted(PropertyAdded(slow.db, p, now), raw, p.id, env.hash(raw.payload)),
                                    slow.ids + [p.id], slow.added + 1, slow.issues + IssuesFor(env, raw))))
  {
    hide UnchangedPropertyId, Inv, Agree, ListingUpserted, PropertyAdded, WellBehaved, Rules.PricePerM2, PropertyFor;
    RenormalizingChangesNothing(env, slow.db, raw, now);
    var p := PropertyFor(env, raw).value;
    StoringKeepsInv(env, slow.db, raw, now);
    var after := ListingUpserted(PropertyAdded(slow.db, p, now), raw, p.id, env.hash(raw.payload));
    AgreeIsTransitive(fast.db, slow.db, after);
  }

  /** Both pipelines store. */
  lemma StoredStaysInStep(env: Env, fast: Progress, slow: Progress, raw: RawListing, now: Time)
    requires WellBehaved(env) && ':' !in raw.portal && InStep(env, Some(fast), Some(slow))
    requires PropertyFor(env, raw).Some? && Rules.PricePerM2(env.lib, PropertyFor(env, raw).value).Success?
    ensures var p := PropertyFor(env, raw).value;
            InStep(env, Some(Progress(ListingUpserted(PropertyAdded(fast.db, p, now), raw, p.id, env.hash(raw.payload)),
                                      fast.ids + [p.id], fast.added + 1, fast.issues + IssuesFor(env, raw))),
                   Some(Progress(ListingUpserted(PropertyAdded(slow.db, p, now), raw, p.id, env.hash(raw.payload)),
                                 slow.ids + [p.id], slow.added + 1, slow.issues + IssuesFor(env, raw))))
  {
    hide Inv, Agree, ListingUpserted, PropertyAdded, WellBehaved, Rules.PricePerM2, PropertyFor;
    StoringKeepsInv(env, fast.db, raw, now);
    StoringKeepsInv(env, slow.db, raw, now);
    StoringKeepsAgreement(fast.db, slow.db, PropertyFor(env, raw).value, raw, env.hash(raw.payload), now);
  }

  function IssuesFor(env: Env, raw: RawListing): nat {
    match env.normalizerOf(raw.portal)(raw)
    case Normalized(_, issues) => issues
    case NormalizerError => 0
  }

  /** What a listing does, by what its normalizer makes of it. */
  lemma IngestedByCase(env: Env, s: Progress, raw: RawListing, now: Time, skipping: bool)
    ensures var known, made :=
              UnchangedPropertyId(s.db, raw.portal, raw.externalId, env.hash(raw.payload)),
              PropertyFor(env, raw);
            Ingested(env, raw.portal, s, raw, now, skipping) ==
            if skipping && known.Some? then Some(s.(ids := s.ids + [known.value]))
            else if env.normalizerOf(raw.portal)(raw).NormalizerError? then None
            else if made.None? then Some(s.(issues := s.issues + IssuesFor(env, raw)))
            else if Rules.PricePerM2(env.lib, made.value).Failure? then None
            else
              var p := made.value;
              Some(Progress(ListingUpserted(PropertyAdded(s.db, p, now), raw, p.id, env.hash(raw.payload)),
                               s.ids + [made.value.id], s.added + 1, s.issues + IssuesFor(env, raw)))
  {
    hide UnchangedPropertyId, ListingUpserted, PropertyAdded, Rules.PricePerM2;
  }

  lemma OneListingStaysInStep(env: Env, fast: Progress, slow: Progress, raw: RawListing, now: Time)
    requires WellBehaved(env) && ':' !in raw.portal && InStep(env, Some(fast), Some(slow))
    ensures InStep(env, Ingested(env, raw.portal, fast, raw, now, true),
                   Ingested(env, raw.portal, slow, raw, now, false))
  {
    hide UnchangedPropertyId, Inv, Agree, ListingUpserted, PropertyAdded, WellBehaved, Rules.PricePerM2, Ingested;
    AgreeOnUnchanged(fast.db, slow.db, raw.portal, raw.externalId, env.hash(raw.payload));
    IngestedByCase(env, fast, raw, now, true);
    IngestedByCase(env, slow, raw, now, false);
    if UnchangedPropertyId(slow.db, raw.portal, raw.externalId, env.hash(raw.payload)).Some? {
      SkippedStaysInStep(env, fast, slow, raw, now);
    } else if PropertyFor(env, raw).Some? && Rules.PricePerM2(env.lib, PropertyFor(env, raw).value).Success? {
      StoredStaysInStep(env, fast, slow, raw, now);
    }
  }

  /** Every listing carries the slug of the portal that was queried. */
  ghost predicate Tagged(portal: string, raws: seq<RawListing>) {
    ':' !in portal && forall i :: 0 <= i < |raws| ==> raws[i].portal == portal
  }

  lemma {:induction false} ListingsStayInStep(
    env: Env, portal: string, fast: Db, slow: Db, raws: seq<RawListing>, seenAt: nat -> Time)
    requires WellBehaved(env) && Tagged(portal, raws) && Agree(fast, slow) && Inv(env, fast) && Inv(env, slow)
    ensures InStep(env, IngestedAll(env, portal, fast, raws, seenAt, true),
                   IngestedAll(env, portal, slow, raws, seenAt, false))
  {
    hide Ingested, Agree, Inv, WellBehaved;
    if raws == [] {
    } else {
      var n := |raws| - 1;
      ListingsStayInStep(env, portal, fast, slow, raws[..n], seenAt);
      var f, s :=
        IngestedAll(env, portal, fast, raws[..n], seenAt, true),
        IngestedAll(env, portal, slow, raws[..n], seenAt, false);
      if f.Some? {
        OneListingStaysInStep(env, f.value, s.value, raws[n], seenAt(n));
      }
    }
  }

  /** Both resolutions end the same way; candidates come with the same ids and agreeing databases. */
  ghost predicate SameResolution(env: Env, fast: Resolution, slow: Resolution) {
    match (fast, slow)
    case (Candidates(f, ids), Candidates(s, jds)) => ids == jds && Agree(f, s) && Inv(env, f) && Inv(env, s)
    case _ => fast == slow
  }

  lemma ResolutionsAgree(env: Env, fast: Db, slow: Db, job: Job)
    requires WellBehaved(env) && Agree(fast, slow) && Inv(env, fast) && Inv(env, slow)
    requires job.fetched.Listings? ==> Tagged(job.query.portal, job.fetched.listings)
    ensures SameResolution(env, Resolved(env, fast, job, true), Resolved(env, slow, job, false))
  {
    hide IngestedAll, WellBehaved;
    if job.fetched.Listings? {
      ListingsStayInStep(env, job.query.portal, fast, slow, job.fetched.listings, job.seenAt);
    }
  }

  /** The ids handed out by each of a sequence of resolutions, None for one that gave none. */
  datatype History = History(db: Db, handedOut: seq<Option<seq<PropertyId>>>)

  /** What a resolution commits: its database, or nothing when it fails or raises. */
  function Resolutions(env: Env, db: Db, jobs: seq<Job>, skipping: bool): History {
    if jobs == [] then History(db, [])
    else
      var earlier := Resolutions(env, db, jobs[..|jobs| - 1], skipping);
      match Resolved(env, earlier.db, jobs[|jobs| - 1], skipping)
      case Candidates(after, ids) => History(after, earlier.handedOut + [Some(ids)])
      case _ => History(earlier.db, earlier.handedOut + [None])
  }

  /**
  Skipping is unobservable: over every sequence of resolutions, with any listings and any repeats, cache
  hits, failures and raised errors included, both pipelines hand out the same ids at every step and end
  with the same properties, price history and cache.
  */
  lemma {:induction false} SkippingRefinesNormalizing(env: Env, db: Db, jobs: seq<Job>)
    requires WellBehaved(env) && Inv(env, db)
    requires forall i :: 0 <= i < |jobs| && jobs[i].fetched.Listings? ==>
               Tagged(jobs[i].query.portal, jobs[i].fetched.listings)
    ensures var fast, slow := Resolutions(env, db, jobs, true), Resolutions(env, db, jobs, false);
            && fast.handedOut == slow.handedOut
            && Agree(fast.db, slow.db)
            && Inv(env, fast.db) && Inv(env, slow.db)
  {
    hide WellBehaved, Inv, Resolved, Tagged;
    if jobs == [] {
    } else {
      var n := |jobs| - 1;
      SkippingRefinesNormalizing(env, db, jobs[..n]);
      var fast, slow := Resolutions(env, db, jobs[..n], true).db, Resolutions(env, db, jobs[..n], false).db;
      ResolutionsAgree(env, fast, slow, jobs[n]);
    }
  }
}
