/**
Scraping what has not changed is free: it writes nothing and hands out the same ids, exactly when the
answer holds no listing in two versions.
*/
module Rescraping {
  import opened Wrappers
  import opened Tables
  import opened AlertCycle
  import opened CycleRefinement
  import opened CycleOrder
  import Decimals
  import Rules

  /** The listing is stored with its present payload. */
  predicate IsKnown(env: Env, db: Db, raw: RawListing) {
    UnchangedPropertyId(db, raw.portal, raw.externalId, env.hash(raw.payload)).Some?
  }

  /** The listings from which properties are made carry one payload each, however often they are repeated. */
  ghost predicate OneVersionEach(env: Env, raws: seq<RawListing>) {
    forall a, b ::
      a in raws && b in raws && SameListing(a, b) && PropertyFor(env, a).Some? && PropertyFor(env, b).Some?
      ==> a.payload == b.payload
  }

  // ----- One version each

  /** Handling a listing makes it known, and keeps known whatever is no other version of it. */
  lemma HandledListingIsKnown(env: Env, s: Progress, raw: RawListing, now: Time, other: RawListing)
    requires Ingested(env, raw.portal, s, raw, now, true).Some? && PropertyFor(env, other).Some?
    requires || other == raw
             || (IsKnown(env, s.db, other)
                 && (SameListing(raw, other) && PropertyFor(env, raw).Some? ==> raw.payload == other.payload))
    ensures IsKnown(env, Ingested(env, raw.portal, s, raw, now, true).value.db, other)
  {
    hide Rules.PricePerM2;
  }

  lemma {:induction false} HandledListingsAreKnown(
    env: Env, portal: string, db: Db, raws: seq<RawListing>, seenAt: nat -> Time)
    requires Tagged(portal, raws) && OneVersionEach(env, raws)
    requires IngestedAll(env, portal, db, raws, seenAt, true).Some?
    ensures forall raw :: raw in raws && PropertyFor(env, raw).Some? ==>
              IsKnown(env, IngestedAll(env, portal, db, raws, seenAt, true).value.db, raw)
  {
    hide Ingested, IsKnown, PropertyFor;
    if raws == [] {
    } else {
      var n := |raws| - 1;
      HandledListingsAreKnown(env, portal, db, raws[..n], seenAt);
      var s := IngestedAll(env, portal, db, raws[..n], seenAt, true).value;
      assert raws[n] in raws && raws[n].portal == portal;
      forall raw | raw in raws && PropertyFor(env, raw).Some?
        ensures IsKnown(env, Ingested(env, portal, s, raws[n], seenAt(n), true).value.db, raw)
      {
        assert raw == raws[n] || raw in raws[..n];
        HandledListingIsKnown(env, s, raws[n], seenAt(n), raw);
      }
    }
  }

  /** Listings that are known, or make no property, leave the database as it is. */
  lemma {:induction false} KnownListingsWriteNothing(
    env: Env, portal: string, db: Db, raws: seq<RawListing>, seenAt: nat -> Time)
    requires Tagged(portal, raws)
    requires forall raw :: raw in raws ==>
               IsKnown(env, db, raw) || (PropertyFor(env, raw).None? && env.normalizerOf(raw.portal)(raw).Normalized?)
    ensures var r := IngestedAll(env, portal, db, raws, seenAt, true);
            r.Some? && r.value.db == db && r.value.added == 0
  {
    if raws == [] {
    } else {
      var n := |raws| - 1;
      KnownListingsWriteNothing(env, portal, db, raws[..n], seenAt);
      assert raws[n] in raws;
    }
  }

  // ----- Two versions

  /** A scrape that adds nothing has found every listing unchanged. */
  lemma {:induction false} NothingAddedMeansKnown(
    env: Env, portal: string, db: Db, raws: seq<RawListing>, seenAt: nat -> Time)
    requires Tagged(portal, raws)
    requires var r := IngestedAll(env, portal, db, raws, seenAt, true); r.Some? && r.value.added == 0
    ensures IngestedAll(env, portal, db, raws, seenAt, true).value.db == db
    ensures forall raw :: raw in raws && PropertyFor(env, raw).Some? ==> IsKnown(env, db, raw)
  {
    hide Rules.PricePerM2, ListingUpserted, PropertyAdded;
    if raws == [] {
    } else {
      var n := |raws| - 1;
      NothingAddedMeansKnown(env, portal, db, raws[..n], seenAt);
      assert raws[n].portal == portal;
      assert forall raw :: raw in raws <==> raw in raws[..n] || raw == raws[n];
    }
  }

  /** Two versions of one listing are not both known. */
  lemma OneVersionIsKnown(env: Env, db: Db, a: RawListing, b: RawListing)
    requires WellBehaved(env) && IsKnown(env, db, a) && IsKnown(env, db, b) && SameListing(a, b)
    ensures a.payload == b.payload
  {
  }

  /**
  Scraping the same listings again, at any later time, hands out the same property ids.  It counts no new
  listing, and then changes no table, if and only if the scrape holds no listing in two versions.
  */
  lemma RescrapingIsFreeIff(
    env: Env, portal: string, db: Db, raws: seq<RawListing>, seenAt: nat -> Time, later: nat -> Time)
    requires WellBehaved(env) && Inv(env, db) && Tagged(portal, raws) && Storable(env, raws)
    ensures IngestedAll(env, portal, db, raws, seenAt, true).Some?
    ensures var once := IngestedAll(env, portal, db, raws, seenAt, true).value;
            var twice := IngestedAll(env, portal, once.db, raws, later, true);
            && twice.Some? && twice.value.ids == once.ids
            && (twice.value.added == 0 <==> OneVersionEach(env, raws))
            && (twice.value.added == 0 ==> twice.value.db == once.db)
  {
    hide WellBehaved, Inv, IngestedAll, IsKnown, PropertyFor, Normals, ContentsOf, Overlaid, IdsOf;
    IngestedAllEffect(env, portal, db, raws, seenAt);
    var once := IngestedAll(env, portal, db, raws, seenAt, true).value;
    IngestedAllEffect(env, portal, once.db, raws, later);
    var twice := IngestedAll(env, portal, once.db, raws, later, true).value;
    if OneVersionEach(env, raws) {
      HandledListingsAreKnown(env, portal, db, raws, seenAt);
      KnownListingsWriteNothing(env, portal, once.db, raws, later);
    }
    if twice.added == 0 {
      NothingAddedMeansKnown(env, portal, once.db, raws, later);
      forall a, b | a in raws && b in raws && SameListing(a, b)
                    && PropertyFor(env, a).Some? && PropertyFor(env, b).Some?
        ensures a.payload == b.payload
      {
        OneVersionIsKnown(env, once.db, a, b);
      }
    }
  }

  // ----- One listing in two versions

  /** An answer that holds one listing at two prices. */
  ghost predicate AtTwoPrices(env: Env, a: RawListing, b: RawListing) {
    && SameListing(a, b) && a.payload != b.payload
    && PropertyFor(env, a).Some? && PropertyFor(env, b).Some?
    && PropertyFor(env, a).value.price.Some? && PropertyFor(env, b).value.price.Some?
    && !SamePrice(PropertyFor(env, a).value.price.value, PropertyFor(env, b).value.price.value)
  }

  /** The listing is stored in one of its versions. */
  ghost predicate HoldsVersion(env: Env, db: Db, raw: RawListing) {
    var key := (raw.portal, raw.externalId);
    && key in db.listings && db.listings[key].contentHash == env.hash(raw.payload)
    && PropertyFor(env, raw).Some?
    && PropertyFor(env, raw).value.id in db.properties
    && db.properties[PropertyFor(env, raw).value.id].property == PropertyFor(env, raw).value
  }

  /** Meeting the other version stores it, and counts it, and records its price. */
  lemma OtherVersionIsAdded(env: Env, s: Progress, held: RawListing, raw: RawListing, now: Time)
    requires WellBehaved(env) && HoldsVersion(env, s.db, held)
    requires AtTwoPrices(env, held, raw) || AtTwoPrices(env, raw, held)
    requires Rules.PricePerM2(env.lib, PropertyFor(env, raw).value).Success?
    ensures var r := Ingested(env, raw.portal, s, raw, now, true);
            && r.Some? && HoldsVersion(env, r.value.db, raw)
            && r.value.added == s.added + 1 && |r.value.db.prices| == |s.db.prices| + 1
  {
    hide Decimals.Value, Rules.PricePerM2;
    assert PropertyFor(env, held).value.id == PropertyFor(env, raw).value.id;
  }

  /** Such an answer is never found unchanged: every further scrape of it adds two listings and two prices. */
  lemma TwoPricesEveryTime(env: Env, portal: string, db: Db, a: RawListing, b: RawListing, later: nat -> Time)
    requires WellBehaved(env) && Tagged(portal, [a, b]) && Storable(env, [a, b])
    requires AtTwoPrices(env, a, b) && HoldsVersion(env, db, b)
    ensures var r := IngestedAll(env, portal, db, [a, b], later, true);
            && r.Some? && HoldsVersion(env, r.value.db, b)
            && r.value.added == 2 && |r.value.db.prices| == |db.prices| + 2
  {
    hide WellBehaved, Ingested, HoldsVersion, Rules.PricePerM2, PropertyFor;
    BothAreStorable(env, a, b);
    assert [a, b][..1] == [a] && [a][..0] == [];
    assert [a, b][0].portal == portal && [a, b][1].portal == portal;
    var none := Progress(db, [], 0, 0);
    OtherVersionIsAdded(env, none, b, a, later(0));
    var one := Ingested(env, portal, none, a, later(0), true).value;
    assert IngestedAll(env, portal, db, [a], later, true) == Some(one);
    OtherVersionIsAdded(env, one, a, b, later(1));
  }

  lemma BothAreStorable(env: Env, a: RawListing, b: RawListing)
    requires Storable(env, [a, b]) && PropertyFor(env, a).Some? && PropertyFor(env, b).Some?
    ensures Rules.PricePerM2(env.lib, PropertyFor(env, a).value).Success?
    ensures Rules.PricePerM2(env.lib, PropertyFor(env, b).value).Success?
  {
    hide Rules.PricePerM2, PropertyFor;
    assert [a, b][..1] == [a] && [a][..0] == [];
    var ps := Normals(env, [a, b]);
    assert Normals(env, [a]) == NormalOf(env, a);
    assert ps == NormalOf(env, a) + NormalOf(env, b);
    assert ps[0] in ps && ps[1] in ps;
  }

  /** Having scraped it once, the second version is the one that is held. */
  lemma SecondVersionIsHeld(env: Env, portal: string, db: Db, a: RawListing, b: RawListing, seenAt: nat -> Time)
    requires WellBehaved(env) && Inv(env, db) && Tagged(portal, [a, b]) && Storable(env, [a, b])
    requires AtTwoPrices(env, a, b)
    ensures var r := IngestedAll(env, portal, db, [a, b], seenAt, true);
            r.Some? && HoldsVersion(env, r.value.db, b)
  {
    hide WellBehaved, Inv, Ingested, HoldsVersion, Rules.PricePerM2, PropertyFor;
    BothAreStorable(env, a, b);
    assert [a, b][..1] == [a] && [a][..0] == [];
    assert [a, b][0].portal == portal && [a, b][1].portal == portal;
    var none := Progress(db, [], 0, 0);
    FirstVersionIsHeld(env, none, a, seenAt(0));
    var one := Ingested(env, portal, none, a, seenAt(0), true).value;
    assert IngestedAll(env, portal, db, [a], seenAt, true) == Some(one);
    OtherVersionIsAdded(env, one, a, b, seenAt(1));
  }

  lemma FirstVersionIsHeld(env: Env, s: Progress, raw: RawListing, now: Time)
    requires WellBehaved(env) && Inv(env, s.db) && PropertyFor(env, raw).Some?
    requires Rules.PricePerM2(env.lib, PropertyFor(env, raw).value).Success?
    ensures var r := Ingested(env, raw.portal, s, raw, now, true); r.Some? && HoldsVersion(env, r.value.db, raw)
  {
    hide Rules.PricePerM2;
    var key := (raw.portal, raw.externalId);
    if UnchangedPropertyId(s.db, raw.portal, raw.externalId, env.hash(raw.payload)).Some? {
      assert RowIsCurrent(env, s.db, key);
      assert SameListing(AsRaw(key, s.db.listings[key]), raw);
    }
  }
}
