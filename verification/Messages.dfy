/**
From matches to messages: whatever order workers and dispatch runs come in, every (alert, property)
match reaches every channel at most once.

The cycle's tables keep the keys of the outbox, `Outbox` the state of its rows; a joint history moves
both.
*/
module Messages {
  import opened Wrappers
  import opened Alerts
  import opened Tables
  import opened AlertCycle
  import opened Conservation
  import Collections
  import Outbox
  import Rules

  // ----- What a worker does to the keys of the outbox

  /** Every entry of the outbox belongs to a match. */
  ghost predicate OutboxInv(db: Db) {
    && MatchInv(db)
    && forall o :: o in db.outbox ==> exists k :: k in db.matches && db.matches[k].id == o.0
  }

  /** Matches keep their ids, and entries of the outbox stay. */
  ghost predicate Grows(before: Db, after: Db) {
    && (forall k :: k in before.matches ==> k in after.matches && after.matches[k] == before.matches[k])
    && before.outbox.Keys <= after.outbox.Keys
  }

  lemma OneMatchGrows(db: Db, alert: SearchAlert, p: Rules.Property, now: Time)
    requires OutboxInv(db)
    ensures var after := MatchStored(db, alert, p, now); OutboxInv(after) && Grows(db, after)
  {
    var key := (alert.id, p.id);
    if key !in db.matches {
      hide AllEnqueued, MatchAdded, EnabledFor, MatchInv, OutboxInv, Grows;
      NewMatchGrows(db, key, EnabledFor(db, alert.userId), now);
    } else {
      hide MatchInv;
    }
  }

  lemma NewMatchGrows(db: Db, key: MatchKey, channels: set<nat>, now: Time)
    requires OutboxInv(db) && key !in db.matches
    ensures var after := AllEnqueued(MatchAdded(db, key, now), db.nextMatch, channels, now);
            OutboxInv(after) && Grows(db, after)
  {
    hide AllEnqueued, MatchAdded, MatchInv;
    OutboxAfter(db, key, channels, now);
    var after := AllEnqueued(MatchAdded(db, key, now), db.nextMatch, channels, now);
    forall o | o in after.outbox
      ensures exists k :: k in after.matches && after.matches[k].id == o.0
    {
      if o in db.outbox {
        var k :| k in db.matches && db.matches[k].id == o.0;
        assert k != key && k in after.matches;
      } else {
        assert key in after.matches && after.matches[key].id == o.0;
      }
    }
  }

  lemma GrowsOn(a: Db, b: Db, c: Db)
    requires Grows(a, b) && Grows(b, c)
    ensures Grows(a, c)
  {
  }

  lemma {:induction false} MatchesGrow(db: Db, alert: SearchAlert, ps: seq<Rules.Property>, now: Time)
    requires OutboxInv(db)
    ensures var after := MatchesStored(db, alert, ps, now); OutboxInv(after) && Grows(db, after)
  {
    if ps == [] {
    } else {
      hide MatchStored, OutboxInv;
      var n := |ps| - 1;
      MatchesGrow(db, alert, ps[..n], now);
      var middle := MatchesStored(db, alert, ps[..n], now);
      OneMatchGrows(middle, alert, ps[n], now);
      GrowsOn(db, middle, MatchStored(middle, alert, ps[n], now));
    }
  }

  lemma SameMatchesSameInv(a: Db, b: Db)
    requires OutboxInv(a) && b.matches == a.matches && b.outbox == a.outbox && b.nextMatch == a.nextMatch
    ensures OutboxInv(b) && Grows(a, b)
  {
  }

  lemma {:induction false} EvaluationGrows(
    env: Env, db: Db, alerts: seq<SearchAlert>, candidates: seq<Rules.Property>, now: Time)
    requires OutboxInv(db) && AlertsHandled(env, db, alerts, candidates, now).Some?
    ensures var after := AlertsHandled(env, db, alerts, candidates, now).value; OutboxInv(after) && Grows(db, after)
  {
    if alerts == [] {
    } else {
      hide Rules.Evaluate, MatchesStored, OutboxInv, Grows;
      var n := |alerts| - 1;
      EvaluationGrows(env, db, alerts[..n], candidates, now);
      var middle := AlertsHandled(env, db, alerts[..n], candidates, now).value;
      var found := Rules.Evaluate(env.lib, env.reg, alerts[n].conditions, candidates);
      if found.Success? {
        MatchesGrow(middle, alerts[n], found.value, now);
        var stored := MatchesStored(middle, alerts[n], found.value, now);
        var saved := AlertSaved(stored, alerts[n].(lastRunAt := Some(now)));
        SameMatchesSameInv(stored, saved);
        GrowsOn(db, middle, stored);
        GrowsOn(db, stored, saved);
      }
    }
  }

  /** A worker never takes a match or an entry of the outbox back. */
  lemma WorkerGrows(env: Env, db: Db, job: Job)
    requires OutboxInv(db)
    ensures OutboxInv(Committed(env, db, job)) && Grows(db, Committed(env, db, job))
  {
    hide OutboxInv, Grows, Loaded, AlertsHandled, IngestedAll;
    var r := Resolved(env, db, job, true);
    ResolvingKeepsMatches(env, db, job, true);
    if r.Candidates? && OneRun(env, db, job).Done? {
      SameMatchesSameInv(db, r.db);
      EvaluationGrows(env, r.db, job.query.alerts, Loaded(r.db, r.ids), job.now);
      GrowsOn(db, r.db, Committed(env, db, job));
    } else {
      SameMatchesSameInv(db, Committed(env, db, job));
    }
  }

  // ----- Joint histories

  /** The tables of the cycle, and what has happened to the outbox since it was empty. */
  datatype Joint = Joint(db: Db, log: seq<Outbox.Event>)

  /** A worker commits, and its new entries are rows of the outbox, in any order and under fresh ids. */
  ghost predicate WorkerStep(env: Env, before: Joint, after: Joint, job: Job, queued: seq<Outbox.Event>) {
    && after.db == Committed(env, before.db, job)
    && after.log == before.log + queued
    && (forall i :: 0 <= i < |queued| ==> queued[i].Enqueue?)
    && (forall m: MatchId, c: nat :: (m, c) in after.db.outbox.Keys - before.db.outbox.Keys <==> IsQueued(queued, m, c))
  }

  predicate IsQueued(queued: seq<Outbox.Event>, m: MatchId, c: nat) {
    exists i :: 0 <= i < |queued| && queued[i].Enqueue? && queued[i].matchId == m && queued[i].channelId == c
  }

  ghost predicate DispatchStep(before: Joint, after: Joint, event: Outbox.Event) {
    event.Dispatch? && after.db == before.db && after.log == before.log + [event]
  }

  ghost predicate JointStep(env: Env, before: Joint, after: Joint) {
    || (exists job, queued :: WorkerStep(env, before, after, job, queued))
    || (exists event :: DispatchStep(before, after, event))
  }

  /** From an empty outbox on: any workers and any dispatch runs, in any order. */
  ghost predicate IsJointHistory(env: Env, states: seq<Joint>, limit: nat, maxAttempts: int) {
    && states != [] && OutboxInv(states[0].db) && states[0].db.outbox == map[] && states[0].log == []
    && (forall i :: 0 < i < |states| ==> JointStep(env, states[i - 1], states[i]))
    && (forall i :: 0 <= i < |states| ==> Outbox.IsRun(Outbox.EMPTY, states[i].log, limit, maxAttempts))
  }

  ghost function BoxOf(state: Joint, maxAttempts: int): Outbox.State {
    Outbox.After(Outbox.EMPTY, state.log, maxAttempts)
  }

  /** The keys of the cycle's outbox are those of the rows. */
  ghost predicate Coupled(state: Joint, maxAttempts: int) {
    && OutboxInv(state.db)
    && forall m: MatchId, c: nat :: (m, c) in state.db.outbox <==> Outbox.Queued(BoxOf(state, maxAttempts).rows, m, c)
  }

  lemma {:induction false} QueuedAfter(
    log: seq<Outbox.Event>, queued: seq<Outbox.Event>, maxAttempts: int, limit: nat, m: MatchId, c: nat)
    requires forall i :: 0 <= i < |queued| ==> queued[i].Enqueue?
    requires Outbox.IsRun(Outbox.EMPTY, log + queued, limit, maxAttempts)
    ensures Outbox.Queued(Outbox.After(Outbox.EMPTY, log + queued, maxAttempts).rows, m, c)
            <==> Outbox.Queued(Outbox.After(Outbox.EMPTY, log, maxAttempts).rows, m, c) || IsQueued(queued, m, c)
  {
    hide Outbox.Queued;
    if queued == [] {
      assert log + queued == log;
    } else {
      var n := |queued| - 1;
      var all, earlier := log + queued, log + queued[..n];
      LastOfLog(log, queued, maxAttempts, limit);
      QueuedAfter(log, queued[..n], maxAttempts, limit, m, c);
      OneQueued(Outbox.After(Outbox.EMPTY, earlier, maxAttempts).rows, queued[n], m, c);
      LastIsQueued(queued, m, c);
    }
  }

  lemma LastOfLog(log: seq<Outbox.Event>, queued: seq<Outbox.Event>, maxAttempts: int, limit: nat)
    requires queued != [] && queued[|queued| - 1].Enqueue?
    requires Outbox.IsRun(Outbox.EMPTY, log + queued, limit, maxAttempts)
    ensures var earlier, e := log + queued[..|queued| - 1], queued[|queued| - 1];
            var before := Outbox.After(Outbox.EMPTY, earlier, maxAttempts);
            && Outbox.IsRun(Outbox.EMPTY, earlier, limit, maxAttempts)
            && e.id !in before.rows
            && Outbox.After(Outbox.EMPTY, log + queued, maxAttempts).rows
               == Outbox.Enqueued(before.rows, e.id, e.matchId, e.channelId, e.now)
  {
    var all := log + queued;
    var n := |all| - 1;
    assert all[..n] == log + queued[..|queued| - 1];
    Outbox.RunPrefix(Outbox.EMPTY, all, limit, maxAttempts, n);
    assert Outbox.CanHappen(Outbox.After(Outbox.EMPTY, all[..n], maxAttempts), all[n], limit);
  }

  lemma LastIsQueued(queued: seq<Outbox.Event>, m: MatchId, c: nat)
    requires queued != [] && queued[|queued| - 1].Enqueue?
    ensures IsQueued(queued, m, c) <==>
              || IsQueued(queued[..|queued| - 1], m, c)
              || (queued[|queued| - 1].matchId == m && queued[|queued| - 1].channelId == c)
  {
    var n := |queued| - 1;
    if i :| 0 <= i < n && queued[..n][i].Enqueue? && queued[..n][i].matchId == m && queued[..n][i].channelId == c {
      assert queued[i] == queued[..n][i];
    }
  }

  lemma OneQueued(rows: Outbox.Table, e: Outbox.Event, m: MatchId, c: nat)
    requires e.Enqueue? && e.id !in rows
    ensures Outbox.Queued(Outbox.Enqueued(rows, e.id, e.matchId, e.channelId, e.now), m, c)
            <==> Outbox.Queued(rows, m, c) || (e.matchId == m && e.channelId == c)
  {
    var after := Outbox.Enqueued(rows, e.id, e.matchId, e.channelId, e.now);
    if Outbox.Queued(rows, m, c) {
      var id :| id in rows && rows[id].matchId == m && rows[id].channelId == c;
      assert id in after && after[id] == rows[id];
    }
    if !Outbox.Queued(rows, e.matchId, e.channelId) {
      assert e.id in after && after[e.id].matchId == e.matchId;
    }
  }

  lemma WorkerKeepsCoupling(
    env: Env, before: Joint, after: Joint, job: Job, queued: seq<Outbox.Event>, limit: nat, maxAttempts: int)
    requires Coupled(before, maxAttempts) && WorkerStep(env, before, after, job, queued)
    requires Outbox.IsRun(Outbox.EMPTY, after.log, limit, maxAttempts)
    ensures Coupled(after, maxAttempts) && Grows(before.db, after.db)
  {
    hide Committed, Outbox.After, Outbox.Queued, IsQueued, Outbox.IsRun, MatchInv;
    WorkerGrows(env, before.db, job);
    forall m: MatchId, c: nat
      ensures (m, c) in after.db.outbox <==> Outbox.Queued(BoxOf(after, maxAttempts).rows, m, c)
    {
      QueuedAfter(before.log, queued, maxAttempts, limit, m, c);
    }
  }

  lemma DispatchKeepsCoupling(before: Joint, after: Joint, event: Outbox.Event, maxAttempts: int)
    requires Coupled(before, maxAttempts) && DispatchStep(before, after, event)
    ensures Coupled(after, maxAttempts) && Grows(before.db, after.db)
  {
    hide MatchInv;
    assert after.log[..|after.log| - 1] == before.log;
    var was, now := BoxOf(before, maxAttempts), BoxOf(after, maxAttempts);
    Outbox.DispatchTouchesBatch(was, event.world, event.batch, maxAttempts);
    SameRowsSameQueue(was.rows, now.rows);
  }

  lemma SameRowsSameQueue(a: Outbox.Table, b: Outbox.Table)
    requires Outbox.SameRows(a, b)
    ensures forall m, c :: Outbox.Queued(a, m, c) <==> Outbox.Queued(b, m, c)
  {
    forall m, c
      ensures Outbox.Queued(a, m, c) <==> Outbox.Queued(b, m, c)
    {
      if Outbox.Queued(a, m, c) {
        var id :| id in a && a[id].matchId == m && a[id].channelId == c;
        assert id in b && b[id].matchId == m && b[id].channelId == c;
      }
      if Outbox.Queued(b, m, c) {
        var id :| id in b && b[id].matchId == m && b[id].channelId == c;
        assert id in a && a[id].matchId == m && a[id].channelId == c;
      }
    }
  }

  lemma {:induction false} HistoryIsCoupled(env: Env, states: seq<Joint>, limit: nat, maxAttempts: int, i: nat)
    requires IsJointHistory(env, states, limit, maxAttempts) && i < |states|
    ensures Coupled(states[i], maxAttempts) && Grows(states[0].db, states[i].db)
  {
    hide Outbox.IsRun, MatchInv;
    if i == 0 {
      NothingIsQueued(states[0], maxAttempts);
    } else {
      HistoryIsCoupled(env, states, limit, maxAttempts, i - 1);
      var before, after := states[i - 1], states[i];
      assert JointStep(env, before, after);
      hide Coupled, Grows, WorkerStep, DispatchStep;
      if job, queued :| WorkerStep(env, before, after, job, queued) {
        WorkerKeepsCoupling(env, before, after, job, queued, limit, maxAttempts);
      } else {
        var event :| DispatchStep(before, after, event);
        DispatchKeepsCoupling(before, after, event, maxAttempts);
      }
      GrowsOn(states[0].db, before.db, after.db);
    }
  }

  lemma NothingIsQueued(state: Joint, maxAttempts: int)
    requires OutboxInv(state.db) && state.db.outbox == map[] && state.log == []
    ensures Coupled(state, maxAttempts)
  {
  }

  // ----- Messages

  /** The successful sends for a row. */
  ghost predicate IsMessage(box: Outbox.State, k: nat, m: MatchId, c: nat) {
    && k < |box.sends| && box.sends[k].ok && box.sends[k].id in box.rows
    && box.rows[box.sends[k].id].matchId == m && box.rows[box.sends[k].id].channelId == c
  }

  /** Send k successfully brings a match to a channel. */
  ghost predicate Brings(state: Joint, maxAttempts: int, k: nat, key: MatchKey, c: nat) {
    key in state.db.matches && IsMessage(BoxOf(state, maxAttempts), k, state.db.matches[key].id, c)
  }

  lemma SuccessOnlyOnce(s: Outbox.State, maxAttempts: int, j: nat, k: nat)
    requires Outbox.Inv(s, maxAttempts) && j < k < |s.sends|
    requires s.sends[j].ok && s.sends[k].ok && s.sends[j].id in s.rows
    ensures s.sends[j].id != s.sends[k].id
  {
    assert Outbox.RowMatchesSends(s, s.sends[j].id, maxAttempts);
    if s.sends[j].id == s.sends[k].id {
      Collections.TwiceCountsTwo(s.sends, j, k);
    }
  }

  /** Every successful send has a row. */
  lemma SendsHaveRows(s: Outbox.State, maxAttempts: int, k: nat)
    requires Outbox.Inv(s, maxAttempts) && k < |s.sends|
    ensures s.sends[k].id in s.rows
  {
    var one := s.sends[k];
    assert one in multiset(s.sends);
    assert Outbox.Tries(s.sends, one.id, one.ok) > 0;
  }

  /** Every successful send brings one match, and no other, to one channel. */
  lemma EveryMessageHasItsMatch(env: Env, states: seq<Joint>, limit: nat, maxAttempts: int, i: nat, k: nat)
    returns (key: MatchKey, c: nat)
    requires 1 <= maxAttempts && IsJointHistory(env, states, limit, maxAttempts) && i < |states|
    requires k < |BoxOf(states[i], maxAttempts).sends| && BoxOf(states[i], maxAttempts).sends[k].ok
    ensures Brings(states[i], maxAttempts, k, key, c)
    ensures forall other, d :: Brings(states[i], maxAttempts, k, other, d) ==> other == key && d == c
  {
    var state := states[i];
    var box := BoxOf(state, maxAttempts);
    HistoryIsCoupled(env, states, limit, maxAttempts, i);
    assert Outbox.IsRun(Outbox.EMPTY, state.log, limit, maxAttempts);
    Outbox.Lifecycle(state.log, limit, maxAttempts);
    SendsHaveRows(box, maxAttempts, k);
    hide Outbox.IsRun, Outbox.Inv, Outbox.After, IsJointHistory;
    var row := box.rows[box.sends[k].id];
    c := row.channelId;
    assert Outbox.Queued(box.rows, row.matchId, row.channelId);
    assert (row.matchId, row.channelId) in state.db.outbox;
    key :| key in state.db.matches && state.db.matches[key].id == row.matchId;
  }

  /**
  At most one message: over every interleaving of workers, crashing ones included, and dispatch runs,
  whatever the notifier answers, each (alert, property) match is brought to each channel at most once.
  */
  lemma AtMostOneMessage(
    env: Env, states: seq<Joint>, limit: nat, maxAttempts: int, i: nat, key: MatchKey, c: nat, j: nat, k: nat)
    requires 1 <= maxAttempts && IsJointHistory(env, states, limit, maxAttempts) && i < |states|
    requires Brings(states[i], maxAttempts, j, key, c) && Brings(states[i], maxAttempts, k, key, c)
    ensures j == k
  {
    var box := BoxOf(states[i], maxAttempts);
    assert Outbox.IsRun(Outbox.EMPTY, states[i].log, limit, maxAttempts);
    Outbox.Lifecycle(states[i].log, limit, maxAttempts);
    hide Outbox.IsRun, Outbox.After, IsJointHistory;
    var a, b := box.sends[j].id, box.sends[k].id;
    assert Outbox.SamePair(box.rows[a], box.rows[b]);
    assert a == b;
    hide Outbox.Inv;
    if j < k {
      SuccessOnlyOnce(box, maxAttempts, j, k);
    } else if k < j {
      SuccessOnlyOnce(box, maxAttempts, k, j);
    }
  }
}
