/**
From a new match to its messages: every enabled channel of the owner gets a row in the outbox, and that
row ends SENT or FAILED unless a batch of undeliverable rows is in its way.
*/
module Arrival {
  import opened Tables
  import opened AlertCycle
  import opened Conservation
  import opened Messages
  import Delivery
  import Outbox
  import Sums

  /** The owner of each alert that the job evaluates. */
  ghost predicate Owned(job: Job, owner: nat -> nat) {
    forall a :: a in job.query.alerts ==> owner(a.id) == a.userId
  }

  lemma EvaluationStored(env: Env, db: Db, job: Job, owner: nat -> nat) returns (hits: set<MatchKey>)
    requires MatchInv(db) && Owned(job, owner)
    ensures Stored(db, Committed(env, db, job), hits, owner)
  {
    hide Stored, MatchInv, Loaded, AlertsHandled, HitsOf, Resolved, Evaluable;
    var r := Resolved(env, db, job, true);
    hits := {};
    if r.Candidates? && OneRun(env, db, job).Done? {
      var candidates := Loaded(r.db, r.ids);
      ResolvingKeepsMatches(env, db, job, true);
      NothingStored(db, r.db, owner);
      StoredKeepsInv(db, r.db, {}, owner);
      EvaluationRaisesIff(env, r.db, job.query.alerts, candidates, job.now);
      AlertsHandledEffect(env, r.db, job.query.alerts, candidates, job.now, owner);
      hits := HitsOf(env, job.query.alerts, candidates);
      StoredTwice(db, r.db, Committed(env, db, job), {}, hits, owner);
      assert {} + hits == hits;
    } else {
      NothingStored(db, Committed(env, db, job), owner);
    }
  }

  /** A worker enqueues every match it creates on every enabled channel of the owner. */
  lemma NewMatchIsEnqueued(env: Env, db: Db, job: Job, owner: nat -> nat, key: MatchKey, c: nat)
    requires MatchInv(db) && Owned(job, owner)
    requires key !in db.matches && key in Committed(env, db, job).matches && IsOn(db, owner(key.0), c)
    ensures var after := Committed(env, db, job); (after.matches[key].id, c) in after.outbox
  {
    hide Committed, MatchInv, EnabledFor, Notified, ChannelCount, Sums.Sum;
    var hits := EvaluationStored(env, db, job, owner);
    var after := Committed(env, db, job);
    assert key in NewKeys(db, hits);
    assert (key, c) in Notices(db, NewKeys(db, hits), owner);
    NotifiedMeans(after, key, c);
  }

  /**
  A new match arrives: a worker that creates it leaves a row of the outbox for every enabled channel of
  its owner; and when the row can be delivered and fewer than a batch of undeliverable rows are in its
  way, it is SENT or FAILED after as many dispatch runs as there is work, whatever the notifier and the
  query answer.
  */
  lemma NewMatchesArrive(
    env: Env, states: seq<Joint>, limit: nat, maxAttempts: int, i: nat, job: Job, queued: seq<Outbox.Event>,
    owner: nat -> nat, key: MatchKey, c: nat, w: Outbox.World, events: seq<Outbox.Event>) returns (id: Outbox.Id)
    requires 1 <= maxAttempts && IsJointHistory(env, states, limit, maxAttempts) && 0 < i < |states|
    requires WorkerStep(env, states[i - 1], states[i], job, queued) && Owned(job, owner)
    requires key !in states[i - 1].db.matches && key in states[i].db.matches
    requires IsOn(states[i - 1].db, owner(key.0), c)
    requires Delivery.IsDispatching(BoxOf(states[i], maxAttempts), w, events, limit, maxAttempts)
    ensures var box := BoxOf(states[i], maxAttempts);
            && id in box.rows
            && box.rows[id].matchId == states[i].db.matches[key].id && box.rows[id].channelId == c
            && (id in Delivery.Ready(box.rows, w) && |Delivery.InTheWay(box.rows, w, id)| < limit
                && Delivery.Work(box.rows, w, maxAttempts) <= |events| ==>
                  var after := Outbox.After(box, events, maxAttempts).rows;
                  id in after && after[id].status != Outbox.PENDING)
  {
    hide Committed, EnabledFor, Delivery.IsDispatching, Delivery.Ready, Delivery.Work, Delivery.InTheWay, Outbox.After,
      Outbox.Inv, Outbox.IsRun, MatchInv;
    HistoryIsCoupled(env, states, limit, maxAttempts, i - 1);
    HistoryIsCoupled(env, states, limit, maxAttempts, i);
    NewMatchIsEnqueued(env, states[i - 1].db, job, owner, key, c);
    var box := BoxOf(states[i], maxAttempts);
    assert Outbox.Queued(box.rows, states[i].db.matches[key].id, c);
    id :| id in box.rows && box.rows[id].matchId == states[i].db.matches[key].id && box.rows[id].channelId == c;
    assert Outbox.IsRun(Outbox.EMPTY, states[i].log, limit, maxAttempts);
    Outbox.Lifecycle(states[i].log, limit, maxAttempts);
    if id in Delivery.Ready(box.rows, w) && |Delivery.InTheWay(box.rows, w, id)| < limit {
      Delivery.Drains(box, w, events, limit, maxAttempts, id);
    }
  }
}
