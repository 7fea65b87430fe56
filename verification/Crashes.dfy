/**
What takes a worker down: exactly the listings that make their normalizer raise, and those that are on
offer for nothing with a known area.
*/
module Crashes {
  import opened Wrappers
  import opened JsonValues
  import opened Tables
  import opened AlertCycle
  import opened CycleRefinement
  import opened CycleOrder
  import opened Conservation
  import opened Normalizers
  import Numerals
  import Decimals
  import Rules

  /** A listing that cannot be stored: its normalizer raises, or it is free of charge and its area known. */
  predicate Breaks(env: Env, raw: RawListing) {
    || env.normalizerOf(raw.portal)(raw).NormalizerError?
    || (PropertyFor(env, raw).Some? && Rules.IsFree(PropertyFor(env, raw).value))
  }

  /** Division keeps signs, and normalizers make prices and areas that `Money` and `Area` accept. */
  ghost predicate Arithmetic(env: Env) {
    && Rules.DividesBySign(env.lib)
    && forall raw :: PropertyFor(env, raw).Some? ==> Rules.IsValued(PropertyFor(env, raw).value)
  }

  /** Every stored property has a price per m² that can be read. */
  ghost predicate Sound(env: Env, db: Db) {
    && Inv(env, db)
    && forall id :: id in db.properties ==> Rules.PricePerM2(env.lib, db.properties[id].property).Success?
  }

  lemma StoringKeepsSound(env: Env, db: Db, raw: RawListing, now: Time)
    requires WellBehaved(env) && Sound(env, db) && ':' !in raw.portal && PropertyFor(env, raw).Some?
    requires Rules.PricePerM2(env.lib, PropertyFor(env, raw).value).Success?
    ensures var p := PropertyFor(env, raw).value;
            Sound(env, ListingUpserted(PropertyAdded(db, p, now), raw, p.id, env.hash(raw.payload)))
  {
    hide Inv, WellBehaved, Rules.PricePerM2, PropertyFor, SamePrice;
    StoringKeepsInv(env, db, raw, now);
  }

  /** The same, in terms of what the code computes. */
  predicate Fails(env: Env, raw: RawListing) {
    || env.normalizerOf(raw.portal)(raw).NormalizerError?
    || (PropertyFor(env, raw).Some? && Rules.PricePerM2(env.lib, PropertyFor(env, raw).value).Failure?)
  }

  lemma FailsIffBreaks(env: Env, raw: RawListing)
    requires Arithmetic(env)
    ensures Fails(env, raw) <==> Breaks(env, raw)
  {
    hide PropertyFor, Rules.PricePerM2, Rules.IsFree, Rules.IsValued, Rules.DividesBySign;
    if PropertyFor(env, raw).Some? {
      Rules.PricePerM2FailsIffFree(env.lib, PropertyFor(env, raw).value);
    }
  }

  /** A listing that fails is never one that may be skipped. */
  lemma OneListingRaisesIff(env: Env, s: Progress, raw: RawListing, now: Time)
    requires WellBehaved(env) && Inv(env, s.db) && ':' !in raw.portal
    ensures var r := Ingested(env, raw.portal, s, raw, now, true);
            && (r.None? <==> Fails(env, raw))
            && (r.Some? ==> Inv(env, r.value.db) && (Sound(env, s.db) ==> Sound(env, r.value.db)))
  {
    var made := PropertyFor(env, raw);
    hide WellBehaved, Inv, PropertyAdded, ListingUpserted, Rules.PricePerM2, Sound, PropertyFor, Ingested,
      UnchangedPropertyId;
    IngestedByCase(env, s, raw, now, true);
    if UnchangedPropertyId(s.db, raw.portal, raw.externalId, env.hash(raw.payload)).Some? {
      RenormalizingChangesNothing(env, s.db, raw, now);
      MadeMeansNormalized(env, raw);
    } else if made.Some? && Rules.PricePerM2(env.lib, made.value).Success? {
      StoringKeepsInv(env, s.db, raw, now);
      if Sound(env, s.db) {
        StoringKeepsSound(env, s.db, raw, now);
      }
    }
  }

  lemma MadeMeansNormalized(env: Env, raw: RawListing)
    requires PropertyFor(env, raw).Some?
    ensures env.normalizerOf(raw.portal)(raw).Normalized?
  {
  }

  /** A scrape raises exactly when it cannot be stored, whatever is stored already. */
  lemma {:induction false} IngestionRaisesIffUnstorable(
    env: Env, portal: string, db: Db, raws: seq<RawListing>, seenAt: nat -> Time)
    requires WellBehaved(env) && Inv(env, db) && Tagged(portal, raws)
    ensures var r := IngestedAll(env, portal, db, raws, seenAt, true);
            && (r.None? <==> exists raw :: raw in raws && Fails(env, raw))
            && (r.Some? ==> Inv(env, r.value.db) && (Sound(env, db) ==> Sound(env, r.value.db)))
  {
    hide WellBehaved, Inv, Sound, Ingested, Fails;
    if raws == [] {
    } else {
      var n := |raws| - 1;
      IngestionRaisesIffUnstorable(env, portal, db, raws[..n], seenAt);
      var earlier := IngestedAll(env, portal, db, raws[..n], seenAt, true);
      assert forall raw :: raw in raws <==> raw in raws[..n] || raw == raws[n];
      if earlier.Some? {
        OneListingRaisesIff(env, earlier.value, raws[n], seenAt(n));
      }
    }
  }

  /** A scrape raises exactly when it holds a listing that breaks, wherever it stands and whatever is stored. */
  lemma IngestionRaisesIff(env: Env, portal: string, db: Db, raws: seq<RawListing>, seenAt: nat -> Time)
    requires WellBehaved(env) && Arithmetic(env) && Sound(env, db) && Tagged(portal, raws)
    ensures var r := IngestedAll(env, portal, db, raws, seenAt, true);
            && (r.None? <==> exists raw :: raw in raws && Breaks(env, raw))
            && (r.Some? ==> Sound(env, r.value.db))
  {
    hide WellBehaved, Arithmetic, IngestedAll, Breaks, Fails, Inv;
    IngestionRaisesIffUnstorable(env, portal, db, raws, seenAt);
    forall raw
      ensures Fails(env, raw) <==> Breaks(env, raw)
    {
      FailsIffBreaks(env, raw);
    }
  }

  /** The cycle's own condition on listings, in these terms. */
  lemma StorableIffNothingFails(env: Env, raws: seq<RawListing>)
    ensures Storable(env, raws) <==> forall raw :: raw in raws ==> !Fails(env, raw)
  {
    hide Rules.PricePerM2, Normals, PropertyFor;
    forall p | p in Normals(env, raws)
      ensures exists raw :: raw in raws && PropertyFor(env, raw) == Some(p)
    {
      NormalsCome(env, raws, p);
    }
    forall raw | raw in raws && PropertyFor(env, raw).Some?
      ensures PropertyFor(env, raw).value in Normals(env, raws)
      ensures env.normalizerOf(raw.portal)(raw).Normalized?
    {
      NormalsHold(env, raws, raw);
      MadeMeansNormalized(env, raw);
    }
  }

  lemma StorableIffNothingBreaks(env: Env, raws: seq<RawListing>)
    requires Arithmetic(env)
    ensures Storable(env, raws) <==> forall raw :: raw in raws ==> !Breaks(env, raw)
  {
    hide Arithmetic, Storable, Breaks, Fails;
    StorableIffNothingFails(env, raws);
    forall raw
      ensures Fails(env, raw) <==> Breaks(env, raw)
    {
      FailsIffBreaks(env, raw);
    }
  }

  lemma {:induction false} NormalsHold(env: Env, raws: seq<RawListing>, raw: RawListing)
    requires raw in raws && PropertyFor(env, raw).Some?
    ensures PropertyFor(env, raw).value in Normals(env, raws)
  {
    hide PropertyFor;
    var n := |raws| - 1;
    if raws[n] == raw {
      assert NormalOf(env, raw)[0] == PropertyFor(env, raw).value;
    } else {
      assert raw in raws[..n];
      NormalsHold(env, raws[..n], raw);
    }
  }

  // ----- Whole workers

  lemma {:induction false} LoadedAreStored(db: Db, ids: seq<PropertyId>)
    ensures forall p :: p in Loaded(db, ids) ==> exists id :: id in db.properties && db.properties[id].property == p
  {
    if ids == [] {
    } else {
      LoadedAreStored(db, ids[..|ids| - 1]);
    }
  }

  /** With the shipped registry, no stored property makes the engine raise. */
  lemma StoredCandidatesAreReadable(env: Env, db: Db, ids: seq<PropertyId>)
    requires Sound(env, db) && env.reg == Rules.DefaultRegistry(env.lib)
    ensures Rules.TypedRegistry(env.reg) && forall p :: p in Loaded(db, ids) ==> Rules.Readable(env.reg, p)
  {
    hide Inv, Rules.PricePerM2, Rules.DefaultRegistry, Rules.TypedRegistry, Rules.Readable, Loaded;
    LoadedAreStored(db, ids);
    forall p: Rules.Property
      ensures Rules.TypedRegistry(env.reg) && (Rules.Readable(env.reg, p) <==> Rules.PricePerM2(env.lib, p).Success?)
    {
      Rules.DefaultRegistryIsTyped(env.lib, p);
    }
    var any: Rules.Property :| true;
    Rules.DefaultRegistryIsTyped(env.lib, any);
  }

  /**
  A worker crashes exactly when nothing is cached for its query and the portal answers with a listing
  that breaks.
  */
  lemma WorkerCrashesIff(env: Env, db: Db, job: Job)
    requires WellBehaved(env) && Arithmetic(env) && Sound(env, db) && env.reg == Rules.DefaultRegistry(env.lib)
    requires forall a :: a in job.query.alerts ==> Rules.Typed(env.reg, a.conditions)
    requires job.fetched.Listings? ==> Tagged(job.query.portal, job.fetched.listings)
    ensures OneRun(env, db, job).Crashed? <==>
              && !IsCached(db, job) && job.fetched.Listings?
              && exists raw :: raw in job.fetched.listings && Breaks(env, raw)
  {
    hide WellBehaved, Arithmetic, Breaks, IngestedAll, AlertsHandled, Loaded, Sound, Rules.DefaultRegistry,
      Rules.Typed, Rules.TypedRegistry, Rules.Readable, Tagged;
    if job.fetched.Listings? {
      IngestionRaisesIff(env, job.query.portal, db, job.fetched.listings, job.seenAt);
    }
    var r := Resolved(env, db, job, true);
    if r.Candidates? {
      ResolvedIsSound(env, db, job);
      StoredCandidatesAreReadable(env, r.db, r.ids);
      TypedIsEvaluable(env, job.query.alerts, Loaded(r.db, r.ids));
      EvaluationRaisesIff(env, r.db, job.query.alerts, Loaded(r.db, r.ids), job.now);
    }
  }

  lemma ResolvedIsSound(env: Env, db: Db, job: Job)
    requires WellBehaved(env) && Arithmetic(env) && Sound(env, db)
    requires job.fetched.Listings? ==> Tagged(job.query.portal, job.fetched.listings)
    ensures var r := Resolved(env, db, job, true); r.Candidates? ==> Sound(env, r.db)
  {
    hide WellBehaved, Arithmetic, IngestedAll, Tagged, RowIsCurrent;
    if job.fetched.Listings? {
      IngestionRaisesIff(env, job.query.portal, db, job.fetched.listings, job.seenAt);
      var s := IngestedAll(env, job.query.portal, db, job.fetched.listings, job.seenAt, true);
      var r := Resolved(env, db, job, true);
      if !IsCached(db, job) && s.Some? {
        SameSourcesAreSound(env, s.value.db, r.db);
      }
    }
  }

  lemma SameSourcesAreSound(env: Env, a: Db, b: Db)
    requires Sound(env, a) && a.listings == b.listings && a.properties == b.properties
    ensures Sound(env, b)
  {
    forall key | key in b.listings
      ensures RowIsCurrent(env, b, key)
    {
      assert RowIsCurrent(env, a, key);
    }
  }

  // ----- The zero price

  /** Pipelines make prices and areas that their value objects accept. */
  lemma PipelinesAreArithmetic(env: Env, lexOf: string -> Lexicon, fieldMapOf: string -> FieldMap)
    requires Rules.DividesBySign(env.lib) && ArePipelines(env, lexOf, fieldMapOf)
    ensures Arithmetic(env)
  {
    hide Normal, FieldsMapped, Rules.IsValued, Rules.DividesBySign;
    forall raw | PropertyFor(env, raw).Some?
      ensures Rules.IsValued(PropertyFor(env, raw).value)
    {
      var id := env.uuid5(raw.portal + [':'] + raw.externalId);
      PipelinesAreValued(lexOf(raw.portal), fieldMapOf(raw.portal), id, raw.payload);
    }
  }

  /** A listing whose price is written as zero and whose area is written as anything else breaks. */
  lemma ZeroPriceBreaks(
    env: Env, lexOf: string -> Lexicon, fieldMapOf: string -> FieldMap, raw: RawListing, k: nat, area: nat, unit: nat)
    requires ArePipelines(env, lexOf, fieldMapOf) && k < |Numerals.SUFFIXES| && unit < |Numerals.SUFFIXES| && area > 0
    requires Gives(lexOf(raw.portal), fieldMapOf(raw.portal), raw.payload, "price", Numerals.Written(false, 0, [], k))
    requires Gives(lexOf(raw.portal), fieldMapOf(raw.portal), raw.payload, "area",
                   Numerals.Written(false, area, [], unit))
    ensures Breaks(env, raw)
  {
    hide Normal, Gives, Numerals.Written, Numerals.NumberOf, Numerals.ParseMoney, Numerals.ParseArea, Decimals.Value;
    var lex, fieldMap, id := lexOf(raw.portal), fieldMapOf(raw.portal), env.uuid5(raw.portal + [':'] + raw.externalId);
    if Normal(lex, fieldMap, id, raw.payload).Normalization? {
      PriceFollowsText(lex, fieldMap, id, raw.payload, Numerals.Written(false, 0, [], k));
      AreaFollowsText(lex, fieldMap, id, raw.payload, Numerals.Written(false, area, [], unit));
      Numerals.MoneyAndAreaRoundTrip(false, 0, [], k);
      Numerals.MoneyAndAreaRoundTrip(false, area, [], unit);
      Numerals.NumberSign(false, 0, []);
      Decimals.ValueSign(Numerals.NumberOf(false, 0, []));
    }
  }

  const FREE: Payload := map["precio" := JStr("0 \U{20AC}"), "superficie" := JStr("90 m\U{B2}")]
  const PRICE_FIELDS: FieldMap := [("precio", "price"), ("superficie", "area")]

  /** Ninety square metres for nothing: one such listing and the worker crashes, whatever else it found. */
  lemma FreeFlatCrashesTheWorker(
    env: Env, lexOf: string -> Lexicon, fieldMapOf: string -> FieldMap, db: Db, job: Job, raw: RawListing)
    requires WellBehaved(env) && Rules.DividesBySign(env.lib) && ArePipelines(env, lexOf, fieldMapOf) && Sound(env, db)
    requires env.reg == Rules.DefaultRegistry(env.lib)
    requires forall a :: a in job.query.alerts ==> Rules.Typed(env.reg, a.conditions)
    requires !IsCached(db, job) && job.fetched.Listings? && Tagged(job.query.portal, job.fetched.listings)
    requires raw in job.fetched.listings && raw.payload == FREE
    requires fieldMapOf(raw.portal) == PRICE_FIELDS && forall s :: lexOf(raw.portal).str(JStr(s)) == s
    ensures OneRun(env, db, job).Crashed?
  {
    hide WellBehaved, Sound, Breaks, OneRun, ArePipelines, Tagged, IsCached, Rules.DividesBySign,
      Rules.DefaultRegistry, Rules.Typed;
    FreeFlatIsGiven(lexOf(raw.portal), raw.payload);
    hide Gives, PRICE_FIELDS;
    PipelinesAreArithmetic(env, lexOf, fieldMapOf);
    ZeroPriceBreaks(env, lexOf, fieldMapOf, raw, 2, 90, 4);
    WorkerCrashesIff(env, db, job);
  }

  lemma FreeFlatIsGiven(lex: Lexicon, payload: Payload)
    requires payload == FREE && forall s :: lex.str(JStr(s)) == s
    ensures Gives(lex, PRICE_FIELDS, payload, "price", Numerals.Written(false, 0, [], 2))
    ensures Gives(lex, PRICE_FIELDS, payload, "area", Numerals.Written(false, 90, [], 4))
  {
    assert Numerals.Written(false, 0, [], 2) == "0 \U{20AC}";
    assert Decimals.DigitsOf(90) == Decimals.DigitsOf(9) + ['0'] == "90";
    assert Numerals.Written(false, 90, [], 4) == "90 m\U{B2}";
    assert PRICE_FIELDS[..1] == [("precio", "price")];
    assert KeyFor([("precio", "price")], payload, "price") == Some("precio");
    assert "area"[0] != "price"[0];
    assert KeyFor(PRICE_FIELDS, payload, "price") == Some("precio");
  }

  // ----- In terms of payloads

  /** Media that cannot be iterated, or a price that is read as zero beside an area that is read at all. */
  predicate PayloadBreaks(lex: Lexicon, fieldMap: FieldMap, payload: Payload) {
    var m := FieldsMapped(fieldMap, payload);
    var price, area := ReadField(lex, MONEY, Get(m.scalars, "price")), ReadField(lex, AREA, Get(m.scalars, "area"));
    || NotIterable(Get(m.media, "images"))
    || NotIterable(Get(m.media, "videos"))
    || (price.Some? && Decimals.Value(price.value) == 0.0 && area.Some?)
  }

  /** Which payloads break, exactly, for every listing of every pipeline. */
  lemma BreaksIffPayloadBreaks(env: Env, lexOf: string -> Lexicon, fieldMapOf: string -> FieldMap, raw: RawListing)
    requires ArePipelines(env, lexOf, fieldMapOf)
    ensures Breaks(env, raw) <==> PayloadBreaks(lexOf(raw.portal), fieldMapOf(raw.portal), raw.payload)
  {
    hide Normal, FieldsMapped, Decimals.Value, Get, NotIterable, ReadField, ReadValues;
    var lex, fieldMap, id := lexOf(raw.portal), fieldMapOf(raw.portal), env.uuid5(raw.portal + [':'] + raw.externalId);
    NormalizationIsTotal(lex, fieldMap, id, raw.payload);
    if Normal(lex, fieldMap, id, raw.payload).Normalization? {
      NumbersAreAssembled(lex, fieldMap, id, raw.payload);
      ReadNumbers(lex, FieldsMapped(fieldMap, raw.payload).scalars);
    }
  }

  lemma ReadNumbers(lex: Lexicon, scalars: map<string, Json>)
    ensures ReadValues(lex, scalars).price == ReadField(lex, MONEY, Get(scalars, "price"))
    ensures ReadValues(lex, scalars).area == ReadField(lex, AREA, Get(scalars, "area"))
  {
    hide ReadField, Get;
  }

  /** A worker over pipelines crashes exactly when its query is not cached and the answer holds such a payload. */
  lemma PipelineCrashesIff(
    env: Env, lexOf: string -> Lexicon, fieldMapOf: string -> FieldMap, db: Db, job: Job)
    requires WellBehaved(env) && Rules.DividesBySign(env.lib) && ArePipelines(env, lexOf, fieldMapOf) && Sound(env, db)
    requires env.reg == Rules.DefaultRegistry(env.lib)
    requires forall a :: a in job.query.alerts ==> Rules.Typed(env.reg, a.conditions)
    requires job.fetched.Listings? ==> Tagged(job.query.portal, job.fetched.listings)
    ensures OneRun(env, db, job).Crashed? <==>
              && !IsCached(db, job) && job.fetched.Listings?
              && exists raw :: raw in job.fetched.listings
                               && PayloadBreaks(lexOf(raw.portal), fieldMapOf(raw.portal), raw.payload)
  {
    hide WellBehaved, Sound, Breaks, OneRun, ArePipelines, Tagged, IsCached, PayloadBreaks, Rules.DividesBySign,
      Rules.DefaultRegistry, Rules.Typed;
    PipelinesAreArithmetic(env, lexOf, fieldMapOf);
    WorkerCrashesIff(env, db, job);
    forall raw
      ensures Breaks(env, raw) <==> PayloadBreaks(lexOf(raw.portal), fieldMapOf(raw.portal), raw.payload)
    {
      BreaksIffPayloadBreaks(env, lexOf, fieldMapOf, raw);
    }
  }
}
