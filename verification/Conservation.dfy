/**
What evaluating alerts adds to the match table and to the outbox: one match per new (alert, property)
pair, one outbox entry per new match and enabled channel of its owner, and nothing the second time.
*/
module Conservation {
  import opened Wrappers
  import opened Alerts
  import opened Tables
  import opened AlertCycle
  import Sums
  import Rules

  /** Match ids are unique, and the counter is ahead of every id in use. */
  ghost predicate MatchInv(db: Db) {
    && (forall k :: k in db.matches ==> db.matches[k].id < db.nextMatch)
    && (forall k, l :: k in db.matches && l in db.matches && db.matches[k].id == db.matches[l].id ==> k == l)
    && (forall o :: o in db.outbox ==> o.0 < db.nextMatch)
  }

  /** The outbox by match and channel. */
  ghost function Notified(db: Db): set<(MatchKey, nat)> {
    set k, o | k in db.matches && o in db.outbox && o.0 == db.matches[k].id :: (k, o.1)
  }

  /** The channel belongs to the user and is switched on. */
  predicate IsOn(db: Db, userId: nat, c: nat) {
    c in db.channels && db.channels[c].userId == userId && db.channels[c].enabled
  }

  /** Every enabled channel of the owner of every key. */
  ghost function Notices(db: Db, keys: set<MatchKey>, owner: nat -> nat): set<(MatchKey, nat)> {
    set k, c | k in keys && c in db.channels && IsOn(db, owner(k.0), c) :: (k, c)
  }

  ghost function ChannelCount(db: Db, owner: nat -> nat): MatchKey -> nat {
    (k: MatchKey) => |EnabledFor(db, owner(k.0))|
  }

  /**
  From `before` to `after` exactly the keys `hits` were stored, and each new one was enqueued once for
  every enabled channel of its owner.
  */
  ghost predicate Stored(before: Db, after: Db, hits: set<MatchKey>, owner: nat -> nat) {
    && MatchInv(after)
    && after.channels == before.channels
    && Kept(before, after, hits)
    && Announced(before, after, hits, owner)
    && Counted(before, after, hits, owner)
  }

  function NewKeys(db: Db, hits: set<MatchKey>): set<MatchKey> {
    hits - db.matches.Keys
  }

  ghost predicate Kept(before: Db, after: Db, hits: set<MatchKey>) {
    && after.matches.Keys == before.matches.Keys + hits
    && forall k :: k in before.matches ==> after.matches[k] == before.matches[k]
  }

  ghost predicate Announced(before: Db, after: Db, hits: set<MatchKey>, owner: nat -> nat) {
    Notified(after) == Notified(before) + Notices(before, NewKeys(before, hits), owner)
  }

  ghost predicate Counted(before: Db, after: Db, hits: set<MatchKey>, owner: nat -> nat) {
    |after.outbox| == |before.outbox| + Sums.Sum(NewKeys(before, hits), ChannelCount(before, owner))
  }

  /** The tables that candidates come from. */
  predicate SameSources(a: Db, b: Db) {
    && a.listings == b.listings && a.properties == b.properties && a.prices == b.prices
    && a.cache == b.cache && a.executions == b.executions
  }

  /** A step that leaves matches, outbox and channels alone stores nothing. */
  lemma NothingStored(before: Db, after: Db, owner: nat -> nat)
    requires MatchInv(before)
    requires after.matches == before.matches && after.outbox == before.outbox
    requires after.nextMatch == before.nextMatch && after.channels == before.channels
    ensures Stored(before, after, {}, owner)
  {
    hide MatchInv, Notified, Notices, ChannelCount, Announced, Counted;
    NothingNew(before, owner);
    NothingAnnounced(before, after, owner);
  }

  lemma NothingNew(db: Db, owner: nat -> nat)
    ensures NewKeys(db, {}) == {} && Notices(db, {}, owner) == {}
  {
  }

  lemma NothingAnnounced(before: Db, after: Db, owner: nat -> nat)
    requires MatchInv(before)
    requires after.matches == before.matches && after.outbox == before.outbox
    requires after.nextMatch == before.nextMatch && after.channels == before.channels
    ensures MatchInv(after) && Announced(before, after, {}, owner) && Counted(before, after, {}, owner)
  {
    hide Notices, ChannelCount, NewKeys;
    NothingNew(before, owner);
    assert Notified(after) == Notified(before);
  }

  lemma NoticesJoin(a: Db, b: Db, first: set<MatchKey>, second: set<MatchKey>, owner: nat -> nat)
    requires a.channels == b.channels
    ensures Notices(a, first + second, owner) == Notices(a, first, owner) + Notices(b, second, owner)
  {
    assert forall user :: EnabledFor(a, user) == EnabledFor(b, user);
    hide EnabledFor;
  }

  lemma CountsJoin(a: Db, b: Db, first: set<MatchKey>, second: set<MatchKey>, owner: nat -> nat)
    requires a.channels == b.channels && first !! second
    ensures Sums.Sum(first + second, ChannelCount(a, owner))
            == Sums.Sum(first, ChannelCount(a, owner)) + Sums.Sum(second, ChannelCount(b, owner))
  {
    forall k: MatchKey
      ensures ChannelCount(a, owner)(k) == ChannelCount(b, owner)(k)
    {
      assert EnabledFor(a, owner(k.0)) == EnabledFor(b, owner(k.0));
    }
    hide EnabledFor, ChannelCount;
    Sums.SumOfDisjoint(first, second, ChannelCount(a, owner));
    Sums.SumDependsOnMembers(second, ChannelCount(a, owner), ChannelCount(b, owner));
  }

  lemma StoredTwice(a: Db, b: Db, c: Db, hits: set<MatchKey>, more: set<MatchKey>, owner: nat -> nat)
    requires Stored(a, b, hits, owner) && Stored(b, c, more, owner)
    ensures Stored(a, c, hits + more, owner)
  {
    hide MatchInv, Kept, Announced, Counted;
    KeptTwice(a, b, c, hits, more);
    AnnouncedTwice(a, b, c, hits, more, owner);
    CountedTwice(a, b, c, hits, more, owner);
  }

  lemma AnnouncedTwice(a: Db, b: Db, c: Db, hits: set<MatchKey>, more: set<MatchKey>, owner: nat -> nat)
    requires Announced(a, b, hits, owner) && Announced(b, c, more, owner) && a.channels == b.channels
    requires NewKeys(a, hits + more) == NewKeys(a, hits) + NewKeys(b, more)
    ensures Announced(a, c, hits + more, owner)
  {
    hide Notified, Notices, EnabledFor, NewKeys;
    NoticesJoin(a, b, NewKeys(a, hits), NewKeys(b, more), owner);
  }

  lemma CountedTwice(a: Db, b: Db, c: Db, hits: set<MatchKey>, more: set<MatchKey>, owner: nat -> nat)
    requires Counted(a, b, hits, owner) && Counted(b, c, more, owner) && a.channels == b.channels
    requires NewKeys(a, hits + more) == NewKeys(a, hits) + NewKeys(b, more) && NewKeys(a, hits) !! NewKeys(b, more)
    ensures Counted(a, c, hits + more, owner)
  {
    hide Sums.Sum, ChannelCount, EnabledFor, NewKeys;
    CountsJoin(a, b, NewKeys(a, hits), NewKeys(b, more), owner);
  }

  lemma KeptTwice(a: Db, b: Db, c: Db, hits: set<MatchKey>, more: set<MatchKey>)
    requires Kept(a, b, hits) && Kept(b, c, more)
    ensures Kept(a, c, hits + more)
    ensures NewKeys(a, hits + more) == NewKeys(a, hits) + NewKeys(b, more)
    ensures NewKeys(a, hits) !! NewKeys(b, more)
  {
  }

  lemma StoredThenNothing(a: Db, b: Db, c: Db, hits: set<MatchKey>, owner: nat -> nat)
    requires Stored(a, b, hits, owner)
    requires c.matches == b.matches && c.outbox == b.outbox && c.nextMatch == b.nextMatch && c.channels == b.channels
    ensures Stored(a, c, hits, owner) && MatchInv(c)
  {
    hide Stored, MatchInv;
    StoredKeepsInv(a, b, hits, owner);
    NothingStored(b, c, owner);
    StoredTwice(a, b, c, hits, {}, owner);
    StoredKeepsInv(b, c, {}, owner);
    assert hits + {} == hits;
  }

  lemma EnqueuedCount(db: Db, matchId: MatchId, channels: set<nat>, now: Time)
    requires forall o :: o in db.outbox ==> o.0 != matchId
    ensures |AllEnqueued(db, matchId, channels, now).outbox| == |db.outbox| + |channels|
  {
    EntriesCount(matchId, channels);
    EntriesAreNew(db.outbox, matchId, channels);
    hide Entries;
    NewEntriesCount(db.outbox, Entries(matchId, channels), now);
    hide WithEntries;
  }

  lemma EntriesAreNew(outbox: map<OutboxKey, Time>, matchId: MatchId, channels: set<nat>)
    requires forall o :: o in outbox ==> o.0 != matchId
    ensures Entries(matchId, channels) !! outbox.Keys
  {
  }

  lemma NewEntriesCount(outbox: map<OutboxKey, Time>, keys: set<OutboxKey>, now: Time)
    requires keys !! outbox.Keys
    ensures |WithEntries(outbox, keys, now)| == |outbox| + |keys|
  {
    var after := WithEntries(outbox, keys, now);
    assert after.Keys == outbox.Keys + keys;
    assert |after| == |after.Keys| && |outbox| == |outbox.Keys|;
  }

  lemma {:induction false} EntriesCount(matchId: MatchId, channels: set<nat>)
    ensures |Entries(matchId, channels)| == |channels|
    decreases channels
  {
    if channels == {} {
    } else {
      var c :| c in channels;
      EntriesCount(matchId, channels - {c});
      assert Entries(matchId, channels) == Entries(matchId, channels - {c}) + {(matchId, c)};
    }
  }

  lemma OutboxAfter(db: Db, key: MatchKey, channels: set<nat>, now: Time)
    requires MatchInv(db) && key !in db.matches
    ensures var after := AllEnqueued(MatchAdded(db, key, now), db.nextMatch, channels, now);
            && after.matches == db.matches[key := MatchRow(db.nextMatch, now)]
            && (forall o :: o in after.outbox <==> o in db.outbox || (o.0 == db.nextMatch && o.1 in channels))
            && MatchInv(after)
            && after.channels == db.channels
  {
    var after := AllEnqueued(MatchAdded(db, key, now), db.nextMatch, channels, now);
    forall o
      ensures o in after.outbox <==> o in db.outbox || (o.0 == db.nextMatch && o.1 in channels)
    {
      if o.0 == db.nextMatch && o.1 in channels {
        assert o == (db.nextMatch, o.1);
      }
    }
  }

  lemma EnqueuedNotices(db: Db, key: MatchKey, channels: set<nat>, now: Time)
    requires MatchInv(db) && key !in db.matches
    ensures Notified(AllEnqueued(MatchAdded(db, key, now), db.nextMatch, channels, now))
            == Notified(db) + set c | c in channels :: (key, c)
  {
    hide AllEnqueued, MatchAdded, Notified, MatchInv;
    var after := AllEnqueued(MatchAdded(db, key, now), db.nextMatch, channels, now);
    forall n: (MatchKey, nat)
      ensures n in Notified(after) <==> n in Notified(db) || (n.0 == key && n.1 in channels)
    {
      OneNotice(db, key, channels, now, n.0, n.1);
      assert n == (n.0, n.1);
    }
  }

  lemma OneNotice(db: Db, key: MatchKey, channels: set<nat>, now: Time, k: MatchKey, c: nat)
    requires MatchInv(db) && key !in db.matches
    ensures (k, c) in Notified(AllEnqueued(MatchAdded(db, key, now), db.nextMatch, channels, now))
            <==> (k, c) in Notified(db) || (k == key && c in channels)
  {
    hide AllEnqueued, MatchAdded, Notified;
    var after := AllEnqueued(MatchAdded(db, key, now), db.nextMatch, channels, now);
    OutboxAfter(db, key, channels, now);
    NotifiedMeans(db, k, c);
    NotifiedMeans(AllEnqueued(MatchAdded(db, key, now), db.nextMatch, channels, now), k, c);
  }

  lemma NotifiedMeans(db: Db, k: MatchKey, c: nat)
    ensures (k, c) in Notified(db) <==> k in db.matches && (db.matches[k].id, c) in db.outbox
  {
    if k in db.matches && (db.matches[k].id, c) in db.outbox {
      var o := (db.matches[k].id, c);
      assert o.0 == db.matches[k].id && (k, o.1) in Notified(db);
    }
  }

  lemma MatchStoredEffect(db: Db, alert: SearchAlert, p: Rules.Property, now: Time, owner: nat -> nat)
    requires MatchInv(db) && owner(alert.id) == alert.userId
    ensures Stored(db, MatchStored(db, alert, p, now), {(alert.id, p.id)}, owner)
  {
    var key := (alert.id, p.id);
    if key in db.matches {
      NothingStored(db, db, owner);
      KnownKeyStored(db, db, key, owner);
    } else {
      var channels := EnabledFor(db, alert.userId);
      hide AllEnqueued, MatchAdded, EnabledFor, MatchInv, Notified, Notices, ChannelCount;
      OutboxAfter(db, key, channels, now);
      EnqueuedNotices(db, key, channels, now);
      FreshMatchHasNoEntries(db, key, now);
      EnqueuedCount(MatchAdded(db, key, now), db.nextMatch, channels, now);
      NewKeyStored(db, MatchStored(db, alert, p, now), key, owner);
    }
  }

  lemma KnownKeyStored(before: Db, after: Db, key: MatchKey, owner: nat -> nat)
    requires Stored(before, after, {}, owner) && key in before.matches
    ensures Stored(before, after, {key}, owner)
  {
    hide MatchInv, Kept, Announced, Counted;
    assert NewKeys(before, {key}) == NewKeys(before, {});
    KnownKeyKept(before, after, key);
    AnnouncedAndCountedByNewKeys(before, after, {}, {key}, owner);
  }

  lemma KnownKeyKept(before: Db, after: Db, key: MatchKey)
    requires Kept(before, after, {}) && key in before.matches
    ensures Kept(before, after, {key})
  {
    assert before.matches.Keys + {key} == before.matches.Keys + {};
  }

  lemma AnnouncedAndCountedByNewKeys(before: Db, after: Db, hits: set<MatchKey>, same: set<MatchKey>, owner: nat -> nat)
    requires NewKeys(before, hits) == NewKeys(before, same)
    ensures Announced(before, after, hits, owner) <==> Announced(before, after, same, owner)
    ensures Counted(before, after, hits, owner) <==> Counted(before, after, same, owner)
  {
    hide Notified, Notices, ChannelCount, NewKeys, Sums.Sum;
  }

  lemma NewKeyStored(before: Db, after: Db, key: MatchKey, owner: nat -> nat)
    requires MatchInv(after) && after.channels == before.channels && key !in before.matches
    requires key in after.matches && after.matches == before.matches[key := after.matches[key]]
    requires Notified(after) == Notified(before) + set c | c in EnabledFor(before, owner(key.0)) :: (key, c)
    requires |after.outbox| == |before.outbox| + |EnabledFor(before, owner(key.0))|
    ensures Stored(before, after, {key}, owner)
  {
    hide MatchInv, Kept, Announced, Counted, EnabledFor, Notified;
    NewKeyKept(before, after, key);
    NewKeyAnnounced(before, after, key, owner);
    NewKeyCounted(before, after, key, owner);
  }

  lemma NewKeyKept(before: Db, after: Db, key: MatchKey)
    requires key !in before.matches
    requires key in after.matches && after.matches == before.matches[key := after.matches[key]]
    ensures Kept(before, after, {key}) && NewKeys(before, {key}) == {key}
  {
  }

  lemma NewKeyAnnounced(before: Db, after: Db, key: MatchKey, owner: nat -> nat)
    requires NewKeys(before, {key}) == {key}
    requires Notified(after) == Notified(before) + set c | c in EnabledFor(before, owner(key.0)) :: (key, c)
    ensures Announced(before, after, {key}, owner)
  {
    SingleKey(before, key, owner);
    hide Notified, Notices, EnabledFor, NewKeys;
  }

  lemma NewKeyCounted(before: Db, after: Db, key: MatchKey, owner: nat -> nat)
    requires NewKeys(before, {key}) == {key}
    requires |after.outbox| == |before.outbox| + |EnabledFor(before, owner(key.0))|
    ensures Counted(before, after, {key}, owner)
  {
    SingleKey(before, key, owner);
    hide ChannelCount, EnabledFor, NewKeys, Sums.Sum;
  }

  lemma FreshMatchHasNoEntries(db: Db, key: MatchKey, now: Time)
    requires MatchInv(db)
    ensures forall o :: o in MatchAdded(db, key, now).outbox ==> o.0 != db.nextMatch
    ensures MatchAdded(db, key, now).outbox == db.outbox
  {
  }

  lemma SingleKey(db: Db, key: MatchKey, owner: nat -> nat)
    ensures Notices(db, {key}, owner) == set c | c in EnabledFor(db, owner(key.0)) :: (key, c)
    ensures Sums.Sum({key}, ChannelCount(db, owner)) == |EnabledFor(db, owner(key.0))|
  {
    Sums.SumTakesOut({key}, ChannelCount(db, owner), key);
    assert {key} - {key} == {};
    hide EnabledFor;
  }

  ghost function KeysOf(alert: SearchAlert, ps: seq<Rules.Property>): set<MatchKey> {
    set p | p in ps :: (alert.id, p.id)
  }

  lemma StoredKeepsInv(a: Db, b: Db, hits: set<MatchKey>, owner: nat -> nat)
    requires Stored(a, b, hits, owner)
    ensures MatchInv(b)
  {
  }

  lemma {:induction false} MatchesStoredEffect(
    db: Db, alert: SearchAlert, ps: seq<Rules.Property>, now: Time, owner: nat -> nat)
    requires MatchInv(db) && owner(alert.id) == alert.userId
    ensures Stored(db, MatchesStored(db, alert, ps, now), KeysOf(alert, ps), owner)
  {
    hide MatchStored, Stored, MatchInv;
    if ps == [] {
      NothingStored(db, db, owner);
      assert KeysOf(alert, ps) == {};
    } else {
      var n := |ps| - 1;
      var middle := MatchesStored(db, alert, ps[..n], now);
      MatchesStoredEffect(db, alert, ps[..n], now, owner);
      StoredKeepsInv(db, middle, KeysOf(alert, ps[..n]), owner);
      MatchStoredEffect(middle, alert, ps[n], now, owner);
      StoredTwice(db, middle, MatchStored(middle, alert, ps[n], now), KeysOf(alert, ps[..n]),
                  {(alert.id, ps[n].id)}, owner);
      assert KeysOf(alert, ps) == KeysOf(alert, ps[..n]) + {(alert.id, ps[n].id)} by {
        assert forall p :: p in ps <==> p in ps[..n] || p == ps[n];
      }
    }
  }

  /** The keys of the candidates on which an alert's tree holds. */
  ghost function Hits(env: Env, alert: SearchAlert, candidates: seq<Rules.Property>): set<MatchKey> {
    set p | p in candidates && Rules.Meaning(env.lib, env.reg, alert.conditions, p) :: (alert.id, p.id)
  }

  ghost function HitsOf(env: Env, alerts: seq<SearchAlert>, candidates: seq<Rules.Property>): set<MatchKey> {
    if alerts == [] then {}
    else HitsOf(env, alerts[..|alerts| - 1], candidates) + Hits(env, alerts[|alerts| - 1], candidates)
  }

  lemma {:induction false} MatchingIsFilter(env: Env, alert: SearchAlert, candidates: seq<Rules.Property>)
    ensures forall p :: p in Rules.Matching(env.lib, env.reg, alert.conditions, candidates) <==>
                          p in candidates && Rules.Meaning(env.lib, env.reg, alert.conditions, p)
    ensures KeysOf(alert, Rules.Matching(env.lib, env.reg, alert.conditions, candidates))
            == Hits(env, alert, candidates)
  {
    hide Rules.Meaning;
    if candidates == [] {
    } else {
      MatchingIsFilter(env, alert, candidates[1..]);
      assert forall p :: p in candidates <==> p == candidates[0] || p in candidates[1..];
    }
  }

  /** The engine does not raise on any of these alerts. */
  ghost predicate Evaluable(env: Env, alerts: seq<SearchAlert>, candidates: seq<Rules.Property>) {
    forall a :: a in alerts ==> Rules.Evaluate(env.lib, env.reg, a.conditions, candidates).Success?
  }

  /** It never does on typed trees and readable candidates. */
  lemma TypedIsEvaluable(env: Env, alerts: seq<SearchAlert>, candidates: seq<Rules.Property>)
    requires Rules.TypedRegistry(env.reg) && (forall a :: a in alerts ==> Rules.Typed(env.reg, a.conditions))
    requires forall p :: p in candidates ==> Rules.Readable(env.reg, p)
    ensures Evaluable(env, alerts, candidates)
  {
    hide Rules.TypedRegistry, Rules.Typed, Rules.Readable, Rules.Evaluate;
    forall a | a in alerts
      ensures Rules.Evaluate(env.lib, env.reg, a.conditions, candidates).Success?
    {
      Rules.EngineFindsTheMatches(env.lib, env.reg, a.conditions, candidates);
    }
  }

  /** The evaluation of a list of alerts raises exactly when the engine raises on one of them. */
  lemma {:induction false} EvaluationRaisesIff(
    env: Env, db: Db, alerts: seq<SearchAlert>, candidates: seq<Rules.Property>, now: Time)
    ensures AlertsHandled(env, db, alerts, candidates, now).Some? <==> Evaluable(env, alerts, candidates)
  {
    hide Rules.Evaluate, MatchesStored;
    if alerts == [] {
    } else {
      var n := |alerts| - 1;
      EvaluationRaisesIff(env, db, alerts[..n], candidates, now);
      assert forall a :: a in alerts <==> a in alerts[..n] || a == alerts[n];
    }
  }

  lemma AlertHandledEffect(
    env: Env, db: Db, alert: SearchAlert, candidates: seq<Rules.Property>, now: Time, owner: nat -> nat)
    requires MatchInv(db) && owner(alert.id) == alert.userId && Evaluable(env, [alert], candidates)
    ensures var after := AlertHandled(env, db, alert, candidates, now);
            && after.Some? && Stored(db, after.value, Hits(env, alert, candidates), owner)
  {
    hide Stored, Hits, MatchInv, MatchesStored, Rules.Evaluate, Rules.Meaning, Rules.Matching;
    var found := Rules.Matching(env.lib, env.reg, alert.conditions, candidates);
    assert alert in [alert];
    Rules.EngineReturnsMatches(env.lib, env.reg, alert.conditions, candidates);
    MatchingIsFilter(env, alert, candidates);
    MatchesStoredEffect(db, alert, found, now, owner);
    var stored := MatchesStored(db, alert, found, now);
    var saved := AlertSaved(stored, alert.(lastRunAt := Some(now)));
    StoredThenNothing(db, stored, saved, Hits(env, alert, candidates), owner);
  }

  lemma {:induction false} AlertsHandledEffect(
    env: Env, db: Db, alerts: seq<SearchAlert>, candidates: seq<Rules.Property>, now: Time, owner: nat -> nat)
    requires MatchInv(db) && (forall a :: a in alerts ==> owner(a.id) == a.userId) && Evaluable(env, alerts, candidates)
    ensures var after := AlertsHandled(env, db, alerts, candidates, now);
            && after.Some? && Stored(db, after.value, HitsOf(env, alerts, candidates), owner)
  {
    hide AlertHandled, Stored, Hits, MatchInv, Rules.Evaluate;
    if alerts == [] {
      NothingStored(db, db, owner);
    } else {
      var n := |alerts| - 1;
      var last := alerts[n];
      AlertsHandledEffect(env, db, alerts[..n], candidates, now, owner);
      var middle := AlertsHandled(env, db, alerts[..n], candidates, now).value;
      StoredKeepsInv(db, middle, HitsOf(env, alerts[..n], candidates), owner);
      AlertHandledEffect(env, middle, last, candidates, now, owner);
      StoredTwice(db, middle, AlertHandled(env, middle, last, candidates, now).value,
                  HitsOf(env, alerts[..n], candidates), Hits(env, last, candidates), owner);
    }
  }

  /** Evaluation leaves the tables that candidates come from alone. */
  lemma {:induction false} EvaluationKeepsSources(
    env: Env, db: Db, alerts: seq<SearchAlert>, candidates: seq<Rules.Property>, now: Time)
    requires AlertsHandled(env, db, alerts, candidates, now).Some?
    ensures SameSources(db, AlertsHandled(env, db, alerts, candidates, now).value)
  {
    hide Rules.Evaluate;
    if alerts == [] {
    } else {
      var n := |alerts| - 1;
      EvaluationKeepsSources(env, db, alerts[..n], candidates, now);
      var middle := AlertsHandled(env, db, alerts[..n], candidates, now).value;
      var found := Rules.Evaluate(env.lib, env.reg, alerts[n].conditions, candidates);
      if found.Success? {
        MatchesKeepSources(middle, alerts[n], found.value, now);
      }
      hide MatchesStored;
    }
  }

  lemma {:induction false} MatchesKeepSources(db: Db, alert: SearchAlert, ps: seq<Rules.Property>, now: Time)
    ensures SameSources(db, MatchesStored(db, alert, ps, now))
  {
    hide EnabledFor;
    if ps == [] {
    } else {
      MatchesKeepSources(db, alert, ps[..|ps| - 1], now);
    }
  }

  lemma KeysCount(before: Db, after: Db, hits: set<MatchKey>)
    requires after.matches.Keys == before.matches.Keys + hits
    ensures |after.matches| == |before.matches| + |NewKeys(before, hits)|
  {
    assert |after.matches| == |after.matches.Keys| && |before.matches| == |before.matches.Keys|;
    assert after.matches.Keys == before.matches.Keys + NewKeys(before, hits);
  }

  /**
  Conservation: evaluating any alerts on any candidates creates as many matches as there are new keys
  and as many outbox entries as the owners of the new keys have enabled channels, and never removes or
  changes a match.
  */
  lemma EvaluationConserves(
    env: Env, db: Db, alerts: seq<SearchAlert>, candidates: seq<Rules.Property>, now: Time, owner: nat -> nat)
    requires MatchInv(db) && (forall a :: a in alerts ==> owner(a.id) == a.userId) && Evaluable(env, alerts, candidates)
    ensures AlertsHandled(env, db, alerts, candidates, now).Some?
    ensures var after, newKeys :=
              AlertsHandled(env, db, alerts, candidates, now).value,
              NewKeys(db, HitsOf(env, alerts, candidates));
            && |after.matches| == |db.matches| + |newKeys|
            && |after.outbox| == |db.outbox| + Sums.Sum(newKeys, ChannelCount(db, owner))
            && (forall k :: k in db.matches ==> k in after.matches && after.matches[k] == db.matches[k])
  {
    AlertsHandledEffect(env, db, alerts, candidates, now, owner);
    hide AlertsHandled, HitsOf, MatchInv, Notified, Notices, ChannelCount, EnabledFor, Evaluable;
    KeysCount(db, AlertsHandled(env, db, alerts, candidates, now).value, HitsOf(env, alerts, candidates));
  }

  lemma KnownKeys(before: map<MatchKey, MatchRow>, after: map<MatchKey, MatchRow>, hits: set<MatchKey>)
    requires after.Keys == before.Keys + hits && hits <= before.Keys
    requires forall k :: k in before ==> after[k] == before[k]
    ensures after == before
  {
    assert after.Keys == before.Keys;
  }

  /** What stores keys that are all there already creates no match and no notification. */
  lemma StoringKnownKeys(before: Db, after: Db, hits: set<MatchKey>, owner: nat -> nat)
    requires Stored(before, after, hits, owner) && hits <= before.matches.Keys
    ensures after.matches == before.matches && |after.outbox| == |before.outbox| && Notified(after) == Notified(before)
  {
    hide Notified, ChannelCount, EnabledFor, MatchInv;
    assert NewKeys(before, hits) == {};
    assert Notices(before, {}, owner) == {};
    hide NewKeys, Notices;
    assert Kept(before, after, hits);
    KnownKeys(before.matches, after.matches, hits);
    hide Kept;
  }

  /** Idempotency: evaluating the same alerts on the same candidates again creates no match and no notification. */
  lemma EvaluatingAgainCreatesNothing(
    env: Env, db: Db, alerts: seq<SearchAlert>, candidates: seq<Rules.Property>, now: Time, later: Time,
    owner: nat -> nat)
    requires MatchInv(db) && (forall a :: a in alerts ==> owner(a.id) == a.userId) && Evaluable(env, alerts, candidates)
    ensures AlertsHandled(env, db, alerts, candidates, now).Some?
    ensures var once := AlertsHandled(env, db, alerts, candidates, now).value;
            var twice := AlertsHandled(env, once, alerts, candidates, later);
            && twice.Some? && twice.value.matches == once.matches && |twice.value.outbox| == |once.outbox|
            && Notified(twice.value) == Notified(once)
  {
    hide AlertsHandled, HitsOf, MatchInv, Notified, Notices, ChannelCount, EnabledFor, Evaluable;
    AlertsHandledEffect(env, db, alerts, candidates, now, owner);
    var once := AlertsHandled(env, db, alerts, candidates, now).value;
    AlertsHandledEffect(env, once, alerts, candidates, later, owner);
    var twice := AlertsHandled(env, once, alerts, candidates, later).value;
    StoringKnownKeys(once, twice, HitsOf(env, alerts, candidates), owner);
  }
}
