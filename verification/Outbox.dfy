/**
The notification outbox and the dispatcher that drains it.

The database's answer to "the oldest PENDING rows" is an input (any answer that the query allows), and
so is what the notifier does with each message.
*/
module Outbox {
  import opened Wrappers

  type Id = nat
  type MatchId = nat
  type ChannelId = nat

  datatype Status = PENDING | SENT | FAILED

  datatype Notification = Notification(
    matchId: MatchId, channelId: ChannelId, createdAt: int,
    status: Status, attempts: nat, lastError: Option<string>, sentAt: Option<int>)

  type Table = map<Id, Notification>

  /** One call of `notifier.send`: which row it was for and whether it succeeded. */
  datatype Send = Send(id: Id, ok: bool)

  datatype State = State(rows: Table, sends: seq<Send>)

  // ----- Repository operations on the table

  predicate Queued(rows: Table, matchId: MatchId, channelId: ChannelId) {
    exists id :: id in rows && rows[id].matchId == matchId && rows[id].channelId == channelId
  }

  function Enqueued(rows: Table, id: Id, matchId: MatchId, channelId: ChannelId, now: int): Table {
    if Queued(rows, matchId, channelId) then rows
    else rows[id := Notification(matchId, channelId, now, PENDING, 0, None, None)]
  }

  function MarkedSent(rows: Table, id: Id, now: int): Table {
    if id !in rows then rows else rows[id := rows[id].(status := SENT, sentAt := Some(now))]
  }

  function MarkedFailed(rows: Table, id: Id, error: string, maxAttempts: int): Table {
    if id !in rows then rows
    else
      var tried := rows[id].(attempts := rows[id].attempts + 1, lastError := Some(error));
      rows[id := if tried.attempts >= maxAttempts then tried.(status := FAILED) else tried]
  }

  function Pending(rows: Table): set<Id> {
    set id | id in rows && rows[id].status == PENDING
  }

  /** The oldest rows of a pool, as many as the limit allows, the oldest first. Ties are in any order. */
  ghost predicate AreOldest(rows: Table, pool: set<Id>, limit: nat, batch: seq<Id>)
    requires pool <= rows.Keys
  {
    && |batch| == (if |pool| < limit then |pool| else limit)
    && (forall i :: 0 <= i < |batch| ==> batch[i] in pool)
    && (forall i, j :: 0 <= i < j < |batch| ==>
          batch[i] != batch[j] && rows[batch[i]].createdAt <= rows[batch[j]].createdAt)
    && (forall i, id :: 0 <= i < |batch| && id in pool && id !in batch ==>
          rows[batch[i]].createdAt <= rows[id].createdAt)
  }

  /** An answer to: select the PENDING rows, order by created_at, limit. */
  ghost predicate IsBatch(rows: Table, limit: nat, batch: seq<Id>) {
    AreOldest(rows, Pending(rows), limit, batch)
  }

  class NotificationRepository {
    var rows: Table

    constructor ()
      ensures rows == map[]
    {
      rows := map[];
    }

    /** `id` is the fresh uuid4. */
    method Enqueue(id: Id, matchId: MatchId, channelId: ChannelId, now: int) returns (queued: bool)
      modifies this
      ensures rows == Enqueued(old(rows), id, matchId, channelId, now)
      ensures queued == !Queued(old(rows), matchId, channelId)
    {
      if exists id :: id in rows && rows[id].matchId == matchId && rows[id].channelId == channelId {
        return false;
      }
      rows := rows[id := Notification(matchId, channelId, now, PENDING, 0, None, None)];
      queued := true;
    }

    method MarkSent(id: Id, sentAt: int)
      modifies this
      ensures rows == MarkedSent(old(rows), id, sentAt)
    {
      if id in rows {
        rows := rows[id := rows[id].(status := SENT, sentAt := Some(sentAt))];
      }
    }

    method MarkFailed(id: Id, error: string, maxAttempts: int)
      modifies this
      ensures rows == MarkedFailed(old(rows), id, error, maxAttempts)
    {
      if id !in rows {
        return;
      }
      var row := rows[id];
      row := row.(attempts := row.attempts + 1);
      row := row.(lastError := Some(error));
      if row.attempts >= maxAttempts {
        row := row.(status := FAILED);
      }
      rows := rows[id := row];
    }
  }

  // ----- The dispatcher

  /**
  What surrounds one run: which (match, channel) pairs can be delivered at all (the channel exists and
  is enabled, the match and its property exist), what the notifier does on the k-th row of the batch
  (None is success, Some the NotifierError), and the clock.
  */
  datatype World = World(deliverable: (MatchId, ChannelId) -> bool, answer: nat -> Option<string>, now: nat -> int)

  predicate Deliverable(rows: Table, w: World, id: Id) {
    id in rows && w.deliverable(rows[id].matchId, rows[id].channelId)
  }

  /** Delivery of the k-th row of a batch. */
  function Delivered(s: State, w: World, k: nat, id: Id, maxAttempts: int): State {
    if !Deliverable(s.rows, w, id) then s
    else match w.answer(k)
      case Some(error) => State(MarkedFailed(s.rows, id, error, maxAttempts), s.sends + [Send(id, false)])
      case None => State(MarkedSent(s.rows, id, w.now(k)), s.sends + [Send(id, true)])
  }

  function Dispatched(s: State, w: World, batch: seq<Id>, maxAttempts: int): State {
    if batch == [] then s
    else
      var n := |batch| - 1;
      Delivered(Dispatched(s, w, batch[..n], maxAttempts), w, n, batch[n], maxAttempts)
  }

  function SentCount(s: State, w: World, batch: seq<Id>): (count: nat)
    ensures count <= |batch|
  {
    if batch == [] then 0
    else
      var n := |batch| - 1;
      SentCount(s, w, batch[..n]) + if Deliverable(s.rows, w, batch[n]) && w.answer(n).None? then 1 else 0
  }

  datatype DispatchReport = DispatchReport(notificationsPending: nat, sent: nat, failed: nat)

  class DispatchNotifications {
    const notifications: NotificationRepository
    const maxAttempts: int
    const batchSize: nat
    var sends: seq<Send>

    ghost function View(): State
      reads this, notifications
    {
      State(notifications.rows, sends)
    }

    constructor (notifications: NotificationRepository, maxAttempts: int, batchSize: nat)
      ensures this.notifications == notifications && this.maxAttempts == maxAttempts
      ensures this.batchSize == batchSize && sends == []
    {
      this.notifications := notifications;
      this.maxAttempts := maxAttempts;
      this.batchSize := batchSize;
      sends := [];
    }

    method Deliver(w: World, k: nat, id: Id) returns (delivered: bool)
      requires id in notifications.rows
      modifies this`sends, notifications
      ensures View() == Delivered(old(View()), w, k, id, maxAttempts)
      ensures delivered == (Deliverable(old(notifications.rows), w, id) && w.answer(k).None?)
    {
      var row := notifications.rows[id];
      if !w.deliverable(row.matchId, row.channelId) {
        return false;
      }
      sends := sends + [Send(id, w.answer(k).None?)];
      if w.answer(k).Some? {
        notifications.MarkFailed(id, w.answer(k).value, maxAttempts);
        return false;
      }
      notifications.MarkSent(id, w.now(k));
      delivered := true;
    }

    method Run(w: World, pending: seq<Id>) returns (report: DispatchReport)
      requires IsBatch(notifications.rows, batchSize, pending)
      modifies this`sends, notifications
      ensures View() == Dispatched(old(View()), w, pending, maxAttempts)
      ensures report == DispatchReport(|pending|, SentCount(old(View()), w, pending),
                                       |pending| - SentCount(old(View()), w, pending))
    {
      ghost var before := View();
      var sent, failed := 0, 0;
      assert pending[..0] == [];
      for i := 0 to |pending|
        invariant View() == Dispatched(before, w, pending[..i], maxAttempts)
        invariant SameRows(before.rows, notifications.rows)
        invariant sent == SentCount(before, w, pending[..i]) && sent + failed == i
      {
        assert pending[..i + 1][..i] == pending[..i];
        assert pending[i] in before.rows;
        var delivered := Deliver(w, i, pending[i]);
        if delivered {
          sent := sent + 1;
        } else {
          failed := failed + 1;
        }
      }
      assert pending[..|pending|] == pending;
      return DispatchReport(|pending|, sent, failed);
    }
  }

  /** The rows are the same ones, for the same matches and channels. */
  ghost predicate SameRows(before: Table, after: Table) {
    && after.Keys == before.Keys
    && forall id {:trigger after[id]} :: id in after ==>
         && after[id].matchId == before[id].matchId
         && after[id].channelId == before[id].channelId
         && after[id].createdAt == before[id].createdAt
  }

  // ----- Lifecycle of a row, over every run

  function Tries(sends: seq<Send>, id: Id, ok: bool): nat {
    multiset(sends)[Send(id, ok)]
  }

  /** A row's columns tell exactly what was tried for it. */
  predicate RowMatchesSends(s: State, id: Id, maxAttempts: int)
    requires id in s.rows
  {
    var row := s.rows[id];
    && Tries(s.sends, id, false) == row.attempts
    && Tries(s.sends, id, true) == (if row.status == SENT then 1 else 0)
    && (if row.status == FAILED then row.attempts == maxAttempts else row.attempts < maxAttempts)
    && (row.sentAt.Some? <==> row.status == SENT)
    && (row.lastError.Some? <==> 0 < row.attempts)
  }

  predicate SamePair(a: Notification, b: Notification) {
    a.matchId == b.matchId && a.channelId == b.channelId
  }

  ghost predicate Inv(s: State, maxAttempts: int) {
    && (forall id :: id in s.rows ==> RowMatchesSends(s, id, maxAttempts))
    && (forall id, ok :: id !in s.rows ==> Tries(s.sends, id, ok) == 0)
    && (forall a, b :: a in s.rows && b in s.rows && SamePair(s.rows[a], s.rows[b]) ==> a == b)
  }

  lemma TriesAfter(sends: seq<Send>, one: Send)
    ensures forall id, ok :: Tries(sends + [one], id, ok) == Tries(sends, id, ok) + if one == Send(id, ok) then 1 else 0
  {
  }

  lemma DeliveredKeepsInv(s: State, w: World, k: nat, id: Id, maxAttempts: int)
    requires Inv(s, maxAttempts) && id in Pending(s.rows)
    ensures Inv(Delivered(s, w, k, id, maxAttempts), maxAttempts)
  {
    hide Tries, RowMatchesSends, MarkedSent, MarkedFailed;
    if Deliverable(s.rows, w, id) {
      var after, ok := Delivered(s, w, k, id, maxAttempts), w.answer(k).None?;
      TriesAfter(s.sends, Send(id, ok));
      OneRowMoves(s, w, k, id, maxAttempts);
      MovedRowMatches(s, after, id, ok, maxAttempts);
      OtherRowsMatch(s, after, id, ok, maxAttempts);
    }
  }

  /** What a delivery does to its row, and that it touches no other. */
  lemma OneRowMoves(s: State, w: World, k: nat, id: Id, maxAttempts: int)
    requires id in Pending(s.rows) && Deliverable(s.rows, w, id)
    ensures var after, ok, row := Delivered(s, w, k, id, maxAttempts), w.answer(k).None?, s.rows[id];
            && after.sends == s.sends + [Send(id, ok)]
            && id in after.rows && after.rows == s.rows[id := after.rows[id]]
            && SamePair(after.rows[id], row)
            && after.rows[id].attempts == row.attempts + (if ok then 0 else 1)
            && after.rows[id].status
               == (if ok then SENT else if row.attempts + 1 >= maxAttempts then FAILED else PENDING)
            && after.rows[id].sentAt == (if ok then Some(w.now(k)) else row.sentAt)
            && after.rows[id].lastError == (if ok then row.lastError else w.answer(k))
            && after.rows[id].createdAt == row.createdAt
  {
  }

  lemma MovedRowMatches(s: State, after: State, id: Id, ok: bool, maxAttempts: int)
    requires id in s.rows && s.rows[id].status == PENDING && RowMatchesSends(s, id, maxAttempts)
    requires forall other, good :: Tries(after.sends, other, good)
               == Tries(s.sends, other, good) + if Send(id, ok) == Send(other, good) then 1 else 0
    requires id in after.rows && after.rows[id].attempts == s.rows[id].attempts + (if ok then 0 else 1)
    requires after.rows[id].status
             == (if ok then SENT else if s.rows[id].attempts + 1 >= maxAttempts then FAILED else PENDING)
    requires after.rows[id].sentAt.Some? <==> s.rows[id].sentAt.Some? || ok
    requires after.rows[id].lastError.Some? <==> s.rows[id].lastError.Some? || !ok
    ensures RowMatchesSends(after, id, maxAttempts)
  {
    hide Tries;
  }

  lemma OtherRowsMatch(s: State, after: State, id: Id, ok: bool, maxAttempts: int)
    requires forall other :: other in s.rows ==> RowMatchesSends(s, other, maxAttempts)
    requires forall other, good :: Tries(after.sends, other, good)
               == Tries(s.sends, other, good) + if Send(id, ok) == Send(other, good) then 1 else 0
    requires id in s.rows && id in after.rows && after.rows == s.rows[id := after.rows[id]]
    ensures forall other :: other in after.rows && other != id ==> RowMatchesSends(after, other, maxAttempts)
  {
    hide Tries;
    forall other | other in after.rows && other != id
      ensures RowMatchesSends(after, other, maxAttempts)
    {
      assert RowMatchesSends(s, other, maxAttempts);
    }
  }

  /** A run touches no row outside its batch, and no row's identity. */
  lemma {:induction false} DispatchTouchesBatch(s: State, w: World, batch: seq<Id>, maxAttempts: int)
    ensures var after := Dispatched(s, w, batch, maxAttempts);
            && SameRows(s.rows, after.rows)
            && (forall id :: id in s.rows && id !in batch ==> after.rows[id] == s.rows[id])
  {
    if batch == [] {
    } else {
      var n := |batch| - 1;
      DispatchTouchesBatch(s, w, batch[..n], maxAttempts);
      assert forall id :: id !in batch ==> id !in batch[..n] && id != batch[n];
    }
  }

  /** Every row is still PENDING when its turn comes. */
  lemma {:induction false} DispatchKeepsInv(s: State, w: World, batch: seq<Id>, maxAttempts: int)
    requires Inv(s, maxAttempts)
    requires forall i :: 0 <= i < |batch| ==> batch[i] in Pending(s.rows)
    requires forall i, j :: 0 <= i < j < |batch| ==> batch[i] != batch[j]
    ensures Inv(Dispatched(s, w, batch, maxAttempts), maxAttempts)
  {
    if batch == [] {
    } else {
      var n := |batch| - 1;
      DispatchKeepsInv(s, w, batch[..n], maxAttempts);
      DispatchTouchesBatch(s, w, batch[..n], maxAttempts);
      assert batch[n] !in batch[..n];
      DeliveredKeepsInv(Dispatched(s, w, batch[..n], maxAttempts), w, n, batch[n], maxAttempts);
    }
  }

  datatype Event =
    | Enqueue(id: Id, matchId: MatchId, channelId: ChannelId, now: int)
    | Dispatch(world: World, batch: seq<Id>)

  function Step(s: State, e: Event, maxAttempts: int): State {
    match e
    case Enqueue(id, matchId, channelId, now) => s.(rows := Enqueued(s.rows, id, matchId, channelId, now))
    case Dispatch(w, batch) => Dispatched(s, w, batch, maxAttempts)
  }

  /** A uuid4 is fresh; a batch is what the query may answer. */
  ghost predicate CanHappen(s: State, e: Event, limit: nat) {
    match e
    case Enqueue(id, _, _, _) => id !in s.rows
    case Dispatch(_, batch) => IsBatch(s.rows, limit, batch)
  }

  function After(s: State, events: seq<Event>, maxAttempts: int): State {
    if events == [] then s
    else Step(After(s, events[..|events| - 1], maxAttempts), events[|events| - 1], maxAttempts)
  }

  ghost predicate IsRun(s: State, events: seq<Event>, limit: nat, maxAttempts: int) {
    forall k {:trigger events[k]} :: 0 <= k < |events| ==>
      CanHappen(After(s, events[..k], maxAttempts), events[k], limit)
  }

  lemma RunPrefix(s: State, events: seq<Event>, limit: nat, maxAttempts: int, n: nat)
    requires IsRun(s, events, limit, maxAttempts) && n <= |events|
    ensures IsRun(s, events[..n], limit, maxAttempts)
  {
    forall k | 0 <= k < n
      ensures CanHappen(After(s, events[..n][..k], maxAttempts), events[..n][k], limit)
    {
      assert events[..n][..k] == events[..k];
      assert events[..n][k] == events[k];
    }
  }

  lemma StepKeepsInv(s: State, e: Event, limit: nat, maxAttempts: int)
    requires 1 <= maxAttempts && Inv(s, maxAttempts) && CanHappen(s, e, limit)
    ensures Inv(Step(s, e, maxAttempts), maxAttempts)
  {
    if e.Dispatch? {
      DispatchKeepsInv(s, e.world, e.batch, maxAttempts);
    }
  }

  const EMPTY := State(map[], [])

  /**
  Over every run of enqueues and dispatches from the empty outbox: at most one row per match and
  channel; a row has had exactly `attempts` failed sends, one successful send if it is SENT and none
  otherwise; it is FAILED exactly when it has used up its attempts.
  */
  lemma {:induction false} Lifecycle(events: seq<Event>, limit: nat, maxAttempts: int)
    requires 1 <= maxAttempts && IsRun(EMPTY, events, limit, maxAttempts)
    ensures Inv(After(EMPTY, events, maxAttempts), maxAttempts)
  {
    if events == [] {
    } else {
      var n := |events| - 1;
      RunPrefix(EMPTY, events, limit, maxAttempts, n);
      Lifecycle(events[..n], limit, maxAttempts);
      StepKeepsInv(After(EMPTY, events[..n], maxAttempts), events[n], limit, maxAttempts);
    }
  }

  /** No message is sent more than `maxAttempts` times, and none successfully more than once. */
  lemma SendsAreBounded(events: seq<Event>, limit: nat, maxAttempts: int, id: Id)
    requires 1 <= maxAttempts && IsRun(EMPTY, events, limit, maxAttempts)
    ensures var sends := After(EMPTY, events, maxAttempts).sends;
            Tries(sends, id, true) <= 1 && Tries(sends, id, true) + Tries(sends, id, false) <= maxAttempts
  {
    Lifecycle(events, limit, maxAttempts);
    var s := After(EMPTY, events, maxAttempts);
    if id in s.rows {
      assert RowMatchesSends(s, id, maxAttempts);
    }
  }

  /** SENT and FAILED are final: whatever happens later, such a row never changes again. */
  lemma {:induction false} TerminalRowsStay(s: State, events: seq<Event>, limit: nat, maxAttempts: int, id: Id)
    requires IsRun(s, events, limit, maxAttempts) && id in s.rows && s.rows[id].status != PENDING
    ensures var after := After(s, events, maxAttempts).rows; id in after && after[id] == s.rows[id]
  {
    if events == [] {
    } else {
      var n := |events| - 1;
      RunPrefix(s, events, limit, maxAttempts, n);
      TerminalRowsStay(s, events[..n], limit, maxAttempts, id);
      var before, e := After(s, events[..n], maxAttempts), events[n];
      assert CanHappen(before, e, limit);
      if e.Dispatch? {
        DispatchTouchesBatch(before, e.world, e.batch, maxAttempts);
      }
    }
  }

  /** Every row was enqueued for its match and channel, at the time of its creation. */
  lemma {:induction false} RowsTellTheirCreation(events: seq<Event>, limit: nat, maxAttempts: int, id: Id)
    requires IsRun(EMPTY, events, limit, maxAttempts) && id in After(EMPTY, events, maxAttempts).rows
    ensures var row := After(EMPTY, events, maxAttempts).rows[id];
            Enqueue(id, row.matchId, row.channelId, row.createdAt) in events
  {
    var n := |events| - 1;
    RunPrefix(EMPTY, events, limit, maxAttempts, n);
    var before, e := After(EMPTY, events[..n], maxAttempts), events[n];
    assert e in events && forall earlier :: earlier in events[..n] ==> earlier in events;
    if e.Dispatch? {
      DispatchTouchesBatch(before, e.world, e.batch, maxAttempts);
    }
    if id in before.rows {
      assert CanHappen(before, e, limit);
      RowsTellTheirCreation(events[..n], limit, maxAttempts, id);
    }
  }

  /** How many sends succeeded. */
  function SuccessesIn(sends: seq<Send>): nat {
    if sends == [] then 0 else SuccessesIn(sends[..|sends| - 1]) + if sends[|sends| - 1].ok then 1 else 0
  }

  /** A run reports as sent exactly the sends that succeeded, and sends once for every deliverable row. */
  lemma {:induction false} ReportCountsTheSends(s: State, w: World, batch: seq<Id>, maxAttempts: int)
    ensures var after := Dispatched(s, w, batch, maxAttempts);
            && SuccessesIn(after.sends) == SuccessesIn(s.sends) + SentCount(s, w, batch)
            && |after.sends| == |s.sends| + |DeliverableIn(s.rows, w, batch)|
  {
    if batch == [] {
    } else {
      var n := |batch| - 1;
      ReportCountsTheSends(s, w, batch[..n], maxAttempts);
      DispatchTouchesBatch(s, w, batch[..n], maxAttempts);
      var before, after := Dispatched(s, w, batch[..n], maxAttempts), Dispatched(s, w, batch, maxAttempts);
      assert Deliverable(before.rows, w, batch[n]) <==> Deliverable(s.rows, w, batch[n]);
      if Deliverable(s.rows, w, batch[n]) {
        assert after.sends[..|before.sends|] == before.sends;
      }
    }
  }

  function DeliverableIn(rows: Table, w: World, batch: seq<Id>): seq<Id> {
    if batch == [] then []
    else
      DeliverableIn(rows, w, batch[..|batch| - 1])
      + if Deliverable(rows, w, batch[|batch| - 1]) then [batch[|batch| - 1]] else []
  }
}
