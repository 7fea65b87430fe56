/**
What the records of a cycle tell: matches and outbox rows when they were made, executions what was
found, listing rows which listing was stored last.
*/
module Records {
  import opened Wrappers
  import opened Alerts
  import opened Tables
  import opened AlertCycle
  import opened CycleRefinement
  import Decimals
  import Pacing
  import Rules

  // ----- When matches and outbox rows were made

  /** What is new in matches and outbox carries this time, and what was there before stays as it was. */
  ghost predicate Stamped(before: Db, after: Db, now: Time) {
    && (forall k :: k in before.matches ==> k in after.matches && after.matches[k] == before.matches[k])
    && (forall k :: k in after.matches && k !in before.matches ==> after.matches[k].matchedAt == now)
    && (forall o :: o in before.outbox ==> o in after.outbox && after.outbox[o] == before.outbox[o])
    && (forall o :: o in after.outbox && o !in before.outbox ==> after.outbox[o] == now)
  }

  lemma StampedTwice(a: Db, b: Db, c: Db, now: Time)
    requires Stamped(a, b, now) && Stamped(b, c, now)
    ensures Stamped(a, c, now)
  {
  }

  lemma OneMatchIsStamped(db: Db, alert: SearchAlert, p: Rules.Property, now: Time)
    ensures Stamped(db, MatchStored(db, alert, p, now), now)
  {
    hide EnabledFor, Entries;
  }

  lemma {:induction false} MatchesAreStamped(db: Db, alert: SearchAlert, ps: seq<Rules.Property>, now: Time)
    ensures Stamped(db, MatchesStored(db, alert, ps, now), now)
  {
    hide MatchStored, Stamped;
    if ps == [] {
      NothingIsStamped(db, db, now);
    } else {
      var n := |ps| - 1;
      MatchesAreStamped(db, alert, ps[..n], now);
      OneMatchIsStamped(MatchesStored(db, alert, ps[..n], now), alert, ps[n], now);
      StampedTwice(db, MatchesStored(db, alert, ps[..n], now), MatchesStored(db, alert, ps, now), now);
    }
  }

  lemma NothingIsStamped(before: Db, after: Db, now: Time)
    requires after.matches == before.matches && after.outbox == before.outbox
    ensures Stamped(before, after, now)
  {
  }

  lemma {:induction false} EvaluationIsStamped(
    env: Env, db: Db, alerts: seq<SearchAlert>, candidates: seq<Rules.Property>, now: Time)
    requires AlertsHandled(env, db, alerts, candidates, now).Some?
    ensures Stamped(db, AlertsHandled(env, db, alerts, candidates, now).value, now)
  {
    hide Stamped, MatchesStored, Rules.Evaluate;
    if alerts == [] {
      NothingIsStamped(db, db, now);
    } else {
      var n := |alerts| - 1;
      EvaluationIsStamped(env, db, alerts[..n], candidates, now);
      var earlier := AlertsHandled(env, db, alerts[..n], candidates, now).value;
      var found := Rules.Evaluate(env.lib, env.reg, alerts[n].conditions, candidates);
      var stored := MatchesStored(earlier, alerts[n], found.value, now);
      MatchesAreStamped(earlier, alerts[n], found.value, now);
      StampedTwice(db, earlier, stored, now);
      NothingIsStamped(stored, AlertsHandled(env, db, alerts, candidates, now).value, now);
      StampedTwice(db, stored, AlertsHandled(env, db, alerts, candidates, now).value, now);
    }
  }

  /** A worker dates the matches and outbox rows that it makes with its own start, and touches no others. */
  lemma WorkerIsStamped(env: Env, db: Db, job: Job)
    ensures Stamped(db, Committed(env, db, job), job.now)
  {
    hide Stamped, AlertsHandled, Loaded, Resolved;
    var r := Resolved(env, db, job, true);
    ResolvingKeepsMatches(env, db, job, true);
    if r.Candidates? && OneRun(env, db, job).Done? {
      NothingIsStamped(db, r.db, job.now);
      EvaluationIsStamped(env, r.db, job.query.alerts, Loaded(r.db, r.ids), job.now);
      StampedTwice(db, r.db, Committed(env, db, job), job.now);
    } else {
      NothingIsStamped(db, Committed(env, db, job), job.now);
    }
  }

  // ----- What a scrape stores and counts

  /** The listing at i makes a property, and is not known with its payload when its turn comes. */
  predicate IsStored(env: Env, portal: string, db: Db, raws: seq<RawListing>, seenAt: nat -> Time, i: nat)
    requires i < |raws|
  {
    var s := IngestedAll(env, portal, db, raws[..i], seenAt, true);
    s.Some? && PropertyFor(env, raws[i]).Some? && !IsUnchanged(env, s.value.db, raws[i])
  }

  predicate IsUnchanged(env: Env, db: Db, raw: RawListing) {
    UnchangedPropertyId(db, raw.portal, raw.externalId, env.hash(raw.payload)).Some?
  }

  ghost function StoredIn(env: Env, portal: string, db: Db, raws: seq<RawListing>, seenAt: nat -> Time): set<nat> {
    set i: nat | i < |raws| && IsStored(env, portal, db, raws, seenAt, i)
  }

  /** The issues of the listings that had to be normalized. */
  function IssuesIn(env: Env, portal: string, db: Db, raws: seq<RawListing>, seenAt: nat -> Time): nat {
    if raws == [] then 0
    else
      var n := |raws| - 1;
      var s := IngestedAll(env, portal, db, raws[..n], seenAt, true);
      IssuesIn(env, portal, db, raws[..n], seenAt)
      + if s.Some? && !IsUnchanged(env, s.value.db, raws[n]) then IssuesFor(env, raws[n]) else 0
  }

  lemma StoredInLonger(env: Env, portal: string, db: Db, raws: seq<RawListing>, seenAt: nat -> Time)
    requires raws != []
    ensures var n := |raws| - 1;
            StoredIn(env, portal, db, raws, seenAt)
            == StoredIn(env, portal, db, raws[..n], seenAt)
               + if IsStored(env, portal, db, raws, seenAt, n) then {n} else {}
  {
    var n := |raws| - 1;
    forall i: nat | i < n
      ensures IsStored(env, portal, db, raws, seenAt, i) <==> IsStored(env, portal, db, raws[..n], seenAt, i)
    {
      assert raws[..n][..i] == raws[..i];
    }
    hide IsStored;
  }

  /** An execution counts as added the listings that were stored, and as issues those of the normalized ones. */
  lemma {:induction false} ScrapeIsCounted(
    env: Env, portal: string, db: Db, raws: seq<RawListing>, seenAt: nat -> Time)
    requires Tagged(portal, raws) && IngestedAll(env, portal, db, raws, seenAt, true).Some?
    ensures var s := IngestedAll(env, portal, db, raws, seenAt, true).value;
            && s.added == |StoredIn(env, portal, db, raws, seenAt)|
            && s.issues == IssuesIn(env, portal, db, raws, seenAt)
  {
    hide PropertyAdded, ListingUpserted, Rules.PricePerM2, UnchangedPropertyId;
    if raws == [] {
      assert StoredIn(env, portal, db, raws, seenAt) == {};
    } else {
      var n := |raws| - 1;
      assert raws[n].portal == portal;
      ScrapeIsCounted(env, portal, db, raws[..n], seenAt);
      StoredInLonger(env, portal, db, raws, seenAt);
      var earlier := StoredIn(env, portal, db, raws[..n], seenAt);
      assert n !in earlier;
      hide StoredIn;
    }
  }

  /** A fetch records how many listings the portal answered with, and these counts. */
  lemma FetchIsCounted(env: Env, db: Db, job: Job)
    requires CacheGet(db, job.query.signature, job.now).None? && job.fetched.Listings?
    requires Tagged(job.query.portal, job.fetched.listings) && Resolved(env, db, job, true).Candidates?
    ensures var portal, raws := job.query.portal, job.fetched.listings;
            Resolved(env, db, job, true).db.executions
            == db.executions + [Succeeded(portal, job.query.signature, |raws|,
                                          |StoredIn(env, portal, db, raws, job.seenAt)|,
                                          IssuesIn(env, portal, db, raws, job.seenAt), job.now)]
  {
    hide IngestedAll, StoredIn, Tagged;
    ScrapeIsCounted(env, job.query.portal, db, job.fetched.listings, job.seenAt);
    IngestingKeeps(env, job.query.portal, db, job.fetched.listings, job.seenAt, true);
  }

  /** No later listing of the scrape is stored under the same key. */
  ghost predicate IsLastStored(
    env: Env, portal: string, db: Db, raws: seq<RawListing>, seenAt: nat -> Time, i: nat) {
    && i < |raws| && IsStored(env, portal, db, raws, seenAt, i)
    && forall j: nat :: i < j < |raws| && SameListing(raws[i], raws[j]) ==> !IsStored(env, portal, db, raws, seenAt, j)
  }

  function KeyOf(raw: RawListing): ListingKey {
    (raw.portal, raw.externalId)
  }

  /** The row of a listing tells the last listing that was stored under its key, in every column. */
  lemma {:induction false} RowsTellTheLastStored(
    env: Env, portal: string, db: Db, raws: seq<RawListing>, seenAt: nat -> Time, i: nat)
    requires Tagged(portal, raws) && IngestedAll(env, portal, db, raws, seenAt, true).Some?
    requires IsLastStored(env, portal, db, raws, seenAt, i)
    ensures var rows, raw := IngestedAll(env, portal, db, raws, seenAt, true).value.db.listings, raws[i];
            && KeyOf(raw) in rows
            && rows[KeyOf(raw)] == ListingRow(PropertyFor(env, raw).value.id, raw.url, raw.payload,
                                              env.hash(raw.payload), raw.scrapedAt)
  {
    hide Rules.PricePerM2, Tagged, IsStored;
    var n := |raws| - 1;
    TaggedPrefix(portal, raws, n);
    LastListing(env, portal, db, raws, seenAt);
    if i < n {
      StoredInPrefix(env, portal, db, raws, seenAt, n, i);
      forall j: nat | i < j < n && SameListing(raws[i], raws[..n][j])
        ensures !IsStored(env, portal, db, raws[..n], seenAt, j)
      {
        StoredInPrefix(env, portal, db, raws, seenAt, n, j);
      }
      RowsTellTheLastStored(env, portal, db, raws[..n], seenAt, i);
    }
  }

  lemma TaggedPrefix(portal: string, raws: seq<RawListing>, n: nat)
    requires Tagged(portal, raws) && n <= |raws|
    ensures Tagged(portal, raws[..n])
  {
  }

  lemma StoredInPrefix(
    env: Env, portal: string, db: Db, raws: seq<RawListing>, seenAt: nat -> Time, n: nat, i: nat)
    requires i < n <= |raws|
    ensures IsStored(env, portal, db, raws[..n], seenAt, i) <==> IsStored(env, portal, db, raws, seenAt, i)
  {
    assert raws[..n][..i] == raws[..i];
  }

  /** And its property was last seen when that listing was met. */
  lemma {:induction false} PropertiesTellWhenSeen(
    env: Env, portal: string, db: Db, raws: seq<RawListing>, seenAt: nat -> Time, i: nat)
    requires WellBehaved(env) && Tagged(portal, raws) && IngestedAll(env, portal, db, raws, seenAt, true).Some?
    requires IsLastStored(env, portal, db, raws, seenAt, i)
    ensures var rows, p :=
              IngestedAll(env, portal, db, raws, seenAt, true).value.db.properties,
              PropertyFor(env, raws[i]);
            && p.Some? && p.value.id in rows
            && rows[p.value.id].property == p.value && rows[p.value.id].lastSeenAt == seenAt(i)
  {
    hide Rules.PricePerM2, Tagged, IsStored, WellBehaved;
    var n := |raws| - 1;
    TaggedPrefix(portal, raws, n);
    LastProperty(env, portal, db, raws, seenAt);
    StoredIsMade(env, portal, db, raws, seenAt, i);
    if i < n {
      StoredInPrefix(env, portal, db, raws, seenAt, n, i);
      forall j: nat | i < j < n && SameListing(raws[i], raws[..n][j])
        ensures !IsStored(env, portal, db, raws[..n], seenAt, j)
      {
        StoredInPrefix(env, portal, db, raws, seenAt, n, j);
      }
      PropertiesTellWhenSeen(env, portal, db, raws[..n], seenAt, i);
      if IsStored(env, portal, db, raws, seenAt, n) {
        StoredIsMade(env, portal, db, raws, seenAt, n);
        DifferentListingsDifferentIds(env, portal, raws, i, n);
      }
    }
  }

  lemma StoredIsMade(env: Env, portal: string, db: Db, raws: seq<RawListing>, seenAt: nat -> Time, i: nat)
    requires i < |raws| && IsStored(env, portal, db, raws, seenAt, i)
    ensures PropertyFor(env, raws[i]).Some?
  {
  }

  lemma DifferentListingsDifferentIds(env: Env, portal: string, raws: seq<RawListing>, i: nat, j: nat)
    requires WellBehaved(env) && Tagged(portal, raws) && i < |raws| && j < |raws| && !SameListing(raws[i], raws[j])
    requires PropertyFor(env, raws[i]).Some? && PropertyFor(env, raws[j]).Some?
    ensures PropertyFor(env, raws[i]).value.id != PropertyFor(env, raws[j]).value.id
  {
    IdsTellListingsApart(env, KeyOf(raws[i]), KeyOf(raws[j]));
  }

  /** What the last listing of a scrape does to the properties. */
  lemma LastProperty(env: Env, portal: string, db: Db, raws: seq<RawListing>, seenAt: nat -> Time)
    requires Tagged(portal, raws) && raws != [] && IngestedAll(env, portal, db, raws, seenAt, true).Some?
    ensures var n := |raws| - 1;
            var p, before := PropertyFor(env, raws[n]), IngestedAll(env, portal, db, raws[..n], seenAt, true);
            var after := IngestedAll(env, portal, db, raws, seenAt, true).value.db.properties;
            && before.Some?
            && if IsStored(env, portal, db, raws, seenAt, n)
               then && p.Some? && p.value.id in after && after[p.value.id].property == p.value
                    && after[p.value.id].lastSeenAt == seenAt(n)
                    && after == before.value.db.properties[p.value.id := after[p.value.id]]
               else after == before.value.db.properties
  {
    hide Rules.PricePerM2, PriceChanged;
    assert raws[|raws| - 1].portal == portal;
  }

  /** What the last listing of a scrape does to the rows. */
  lemma LastListing(env: Env, portal: string, db: Db, raws: seq<RawListing>, seenAt: nat -> Time)
    requires Tagged(portal, raws) && raws != [] && IngestedAll(env, portal, db, raws, seenAt, true).Some?
    ensures var n := |raws| - 1;
            var raw, before := raws[n], IngestedAll(env, portal, db, raws[..n], seenAt, true);
            && before.Some?
            && IngestedAll(env, portal, db, raws, seenAt, true).value.db.listings
               == if IsStored(env, portal, db, raws, seenAt, n)
                  then before.value.db.listings[KeyOf(raw) :=
                         ListingRow(PropertyFor(env, raw).value.id, raw.url, raw.payload, env.hash(raw.payload),
                                    raw.scrapedAt)]
                  else before.value.db.listings
  {
    hide Rules.PricePerM2;
    assert raws[|raws| - 1].portal == portal;
  }

  // ----- Failures

  function FailuresIn(executions: seq<Execution>): nat {
    if executions == [] then 0
    else FailuresIn(executions[..|executions| - 1]) + if executions[|executions| - 1].Failed? then 1 else 0
  }

  lemma FailureLogged(env: Env, db: Db, job: Job)
    ensures FailuresIn(Committed(env, db, job).executions)
            == FailuresIn(db.executions) + if OneRun(env, db, job).Done? && !OneRun(env, db, job).ok then 1 else 0
  {
    var trace := Pacing.WorkerLeaves(env, db, job);
    var after := Committed(env, db, job).executions;
    assert !trace.Quiet? ==> after[..|after| - 1] == db.executions;
    WorkerSucceedsIff(env, db, job);
    hide OneRun, Committed;
  }

  lemma WorkerSucceedsIff(env: Env, db: Db, job: Job)
    ensures var r, n := OneRun(env, db, job), |db.executions|;
            r.Done? ==>
              (!r.ok <==> |r.db.executions| == n + 1 && r.db.executions[n].Failed?)
  {
    hide AlertsHandled, Loaded, IngestedAll;
    var r := Resolved(env, db, job, true);
    if r.Candidates? && OneRun(env, db, job).Done? {
      Pacing.EvaluationKeepsLog(env, r.db, job.query.alerts, Loaded(r.db, r.ids), job.now);
      if job.fetched.Listings? && CacheGet(db, job.query.signature, job.now).None? {
        IngestingKeeps(env, job.query.portal, db, job.fetched.listings, job.seenAt, true);
      }
    }
  }

  /** What a cycle reports as failed is what its log of executions has gained in failures. */
  lemma {:induction false} FailuresAreLogged(env: Env, db: Db, jobs: seq<Job>)
    ensures FailuresIn(CommittedAll(env, db, jobs).executions) == FailuresIn(db.executions) + FailedIn(env, db, jobs)
  {
    hide OneRun, Committed;
    if jobs == [] {
    } else {
      var n := |jobs| - 1;
      FailuresAreLogged(env, db, jobs[..n]);
      FailureLogged(env, CommittedAll(env, db, jobs[..n]), jobs[n]);
    }
  }

  // ----- Prices

  /** A known price counts as changed when amount or currency differ from the stored one; 100 and 100.0 do not. */
  lemma PricesCompareByValue(row: PropertyRow, price: Rules.Money)
    ensures PriceChanged(Some(row), price)
            <==> row.property.price.None?
                 || Decimals.Value(row.property.price.value.amount) != Decimals.Value(price.amount)
                 || row.property.price.value.currency != price.currency
    ensures PriceChanged(None, price)
  {
  }
}
