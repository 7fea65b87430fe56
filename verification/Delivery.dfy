/**
Which messages the dispatcher delivers, and which it leaves waiting: progress and starvation of the
outbox, row by row, over all runs of the dispatcher with nothing enqueued and no channel changed.
*/
module Delivery {
  import opened Wrappers
  import opened Outbox
  import Collections
  import Sums

  /** The attempts still open for the rows that can be delivered. */
  function Weight(rows: Table, w: World, maxAttempts: int, id: Id): nat {
    if id in Pending(rows) && Deliverable(rows, w, id) && rows[id].attempts < maxAttempts
    then maxAttempts - rows[id].attempts else 0
  }

  ghost function Work(rows: Table, w: World, maxAttempts: int): nat {
    Sums.Sum(rows.Keys, id => Weight(rows, w, maxAttempts, id))
  }

  ghost function Ready(rows: Table, w: World): set<Id> {
    set id | id in Pending(rows) && Deliverable(rows, w, id)
  }

  ghost function Undeliverable(rows: Table, w: World): set<Id> {
    Pending(rows) - Ready(rows, w)
  }

  ghost predicate SameRoutes(a: World, b: World) {
    forall m, c :: a.deliverable(m, c) == b.deliverable(m, c)
  }

  lemma WorkAfterOneRow(rows: Table, after: Table, w: World, maxAttempts: int, id: Id)
    requires id in rows && id in after && after == rows[id := after[id]]
    ensures Work(after, w, maxAttempts) + Weight(rows, w, maxAttempts, id)
            == Work(rows, w, maxAttempts) + Weight(after, w, maxAttempts, id)
  {
    var before, later := x => Weight(rows, w, maxAttempts, x), x => Weight(after, w, maxAttempts, x);
    assert after.Keys == rows.Keys;
    Sums.SumTakesOut(rows.Keys, before, id);
    Sums.SumTakesOut(rows.Keys, later, id);
    Sums.SumDependsOnMembers(rows.Keys - {id}, before, later);
  }

  /** One delivery uses up work exactly when its row can be delivered. */
  lemma DeliveredWorks(s: State, w: World, k: nat, id: Id, maxAttempts: int)
    requires Inv(s, maxAttempts) && id in Pending(s.rows)
    ensures var after := Delivered(s, w, k, id, maxAttempts);
            if Deliverable(s.rows, w, id) then Work(after.rows, w, maxAttempts) < Work(s.rows, w, maxAttempts)
            else after == s
  {
    if Deliverable(s.rows, w, id) {
      var after := Delivered(s, w, k, id, maxAttempts).rows;
      assert RowMatchesSends(s, id, maxAttempts);
      assert after == s.rows[id := after[id]];
      WorkAfterOneRow(s.rows, after, w, maxAttempts, id);
    }
  }

  /** A run uses up work exactly when its batch holds a row that can be delivered. */
  lemma {:induction false} DispatchWorks(s: State, w: World, batch: seq<Id>, maxAttempts: int)
    requires Inv(s, maxAttempts)
    requires forall i :: 0 <= i < |batch| ==> batch[i] in Pending(s.rows)
    requires forall i, j :: 0 <= i < j < |batch| ==> batch[i] != batch[j]
    ensures var after := Dispatched(s, w, batch, maxAttempts);
            if exists i :: 0 <= i < |batch| && Deliverable(s.rows, w, batch[i])
            then Work(after.rows, w, maxAttempts) < Work(s.rows, w, maxAttempts)
            else after == s
  {
    hide Inv, Work, Delivered;
    if batch == [] {
    } else {
      var n := |batch| - 1;
      var middle := Dispatched(s, w, batch[..n], maxAttempts);
      DispatchWorks(s, w, batch[..n], maxAttempts);
      DispatchKeepsInv(s, w, batch[..n], maxAttempts);
      DispatchTouchesBatch(s, w, batch[..n], maxAttempts);
      assert batch[n] !in batch[..n];
      DeliveredWorks(middle, w, n, batch[n], maxAttempts);
      assert forall i :: 0 <= i < n ==> batch[..n][i] == batch[i];
    }
  }

  /** The PENDING rows that any answer to the query lists before this one. */
  ghost function Ahead(rows: Table, id: Id): set<Id>
    requires id in rows
  {
    OlderIn(rows, Pending(rows), id)
  }

  ghost function OlderIn(rows: Table, pool: set<Id>, id: Id): set<Id>
    requires pool <= rows.Keys && id in rows
  {
    set other | other in pool && rows[other].createdAt < rows[id].createdAt
  }

  lemma {:induction false} OldestOf(rows: Table, pool: set<Id>, favourite: Id) returns (oldest: Id)
    requires pool <= rows.Keys && pool != {}
    ensures oldest in pool
    ensures forall id :: id in pool ==> rows[oldest].createdAt <= rows[id].createdAt
    ensures favourite in pool && oldest != favourite ==> rows[oldest].createdAt < rows[favourite].createdAt
    decreases |pool|
  {
    oldest :| oldest in pool;
    assert forall id :: id in pool ==> id == oldest || id in pool - {oldest};
    if pool - {oldest} != {} {
      var other := OldestOf(rows, pool - {oldest}, favourite);
      if rows[other].createdAt < rows[oldest].createdAt
         || (rows[other].createdAt == rows[oldest].createdAt && oldest != favourite) {
        oldest := other;
      }
    }
  }

  /** The query always has an answer, and one with any given row that fewer than `limit` rows precede. */
  lemma {:induction false} AnswerWith(rows: Table, pool: set<Id>, limit: nat, favourite: Id) returns (batch: seq<Id>)
    requires pool <= rows.Keys
    ensures AreOldest(rows, pool, limit, batch)
    ensures favourite in pool && |OlderIn(rows, pool, favourite)| < limit ==> favourite in batch
    decreases limit
  {
    if limit == 0 || pool == {} {
      batch := [];
    } else {
      var oldest := OldestOf(rows, pool, favourite);
      var rest := AnswerWith(rows, pool - {oldest}, limit - 1, favourite);
      batch := [oldest] + rest;
      if favourite in pool && oldest != favourite {
        var older, fewer := OlderIn(rows, pool, favourite), OlderIn(rows, pool - {oldest}, favourite);
        assert older == fewer + {oldest} && oldest !in fewer;
        assert favourite in rest ==> favourite in batch;
      } else {
        assert batch[0] == oldest;
      }
    }
  }

  lemma DistinctIdsFit(batch: seq<Id>, pool: set<Id>)
    requires forall i :: 0 <= i < |batch| ==> batch[i] in pool
    requires forall i, j :: 0 <= i < j < |batch| ==> batch[i] != batch[j]
    ensures |batch| <= |pool|
    ensures |batch| == |pool| ==> forall id :: id in pool ==> id in batch
    decreases |batch|
  {
    if batch == [] {
      assert pool == {} || |pool| > 0;
    } else {
      var n := |batch| - 1;
      DistinctIdsFit(batch[..n], pool - {batch[n]});
      assert forall id :: id in pool - {batch[n]} && id in batch[..n] ==> id in batch;
    }
  }

  lemma {:induction false} DistinctIdsCover(batch: seq<Id>, part: set<Id>)
    requires forall id :: id in part ==> id in batch
    ensures |part| <= |batch|
    decreases |batch|
  {
    if batch == [] {
      assert part == {};
    } else {
      var n := |batch| - 1;
      forall id | id in part - {batch[n]} ensures id in batch[..n] {
        var i :| 0 <= i < |batch| && batch[i] == id;
        assert batch[..n][i] == id;
      }
      DistinctIdsCover(batch[..n], part - {batch[n]});
      assert part <= (part - {batch[n]}) + {batch[n]};
    }
  }

  ghost predicate NothingReadyIn(rows: Table, w: World, batch: seq<Id>) {
    forall i :: 0 <= i < |batch| ==> !Deliverable(rows, w, batch[i])
  }

  /** Each row that can be delivered has at least `limit` older PENDING rows before it. */
  ghost predicate Blocked(rows: Table, w: World, limit: nat) {
    forall id :: id in Ready(rows, w) ==> limit <= |Ahead(rows, id)|
  }

  /**
  Standstill, exactly: no answer to the query holds a deliverable row if and only if the outbox is
  blocked.
  */
  lemma BlockedIffNothingIsTried(rows: Table, w: World, limit: nat)
    ensures Blocked(rows, w, limit) <==> forall batch :: IsBatch(rows, limit, batch) ==> NothingReadyIn(rows, w, batch)
  {
    if Blocked(rows, w, limit) {
      forall batch | IsBatch(rows, limit, batch)
        ensures NothingReadyIn(rows, w, batch)
      {
        forall i | 0 <= i < |batch| && Deliverable(rows, w, batch[i]) ensures false {
          assert batch[i] in Ready(rows, w);
          var older := Ahead(rows, batch[i]);
          assert forall id :: id in older ==> id in batch;
          assert batch[i] !in older;
          DistinctIdsCover(batch, older + {batch[i]});
        }
      }
    } else {
      var id :| id in Ready(rows, w) && |Ahead(rows, id)| < limit;
      var batch := AnswerWith(rows, Pending(rows), limit, id);
      assert IsBatch(rows, limit, batch);
      assert id in batch;
    }
  }

  /** A blocked outbox stays as it is through any number of runs, as long as the channels stay as they are. */
  lemma {:induction false} BlockedForever(s: State, w: World, events: seq<Event>, limit: nat, maxAttempts: int)
    requires Inv(s, maxAttempts) && Blocked(s.rows, w, limit) && IsRun(s, events, limit, maxAttempts)
    requires forall k :: 0 <= k < |events| ==> events[k].Dispatch? && SameRoutes(events[k].world, w)
    ensures After(s, events, maxAttempts) == s
  {
    if events == [] {
    } else {
      var n := |events| - 1;
      RunPrefix(s, events, limit, maxAttempts, n);
      BlockedForever(s, w, events[..n], limit, maxAttempts);
      var e := events[n];
      assert CanHappen(After(s, events[..n], maxAttempts), e, limit);
      BlockedIffNothingIsTried(s.rows, w, limit);
      assert NothingReadyIn(s.rows, w, e.batch);
      assert forall i :: 0 <= i < |e.batch| ==> !Deliverable(s.rows, e.world, e.batch[i]);
      DispatchWorks(s, e.world, e.batch, maxAttempts);
    }
  }

  lemma RoutesDecideWork(rows: Table, a: World, b: World, maxAttempts: int)
    requires SameRoutes(a, b)
    ensures Work(rows, a, maxAttempts) == Work(rows, b, maxAttempts)
    ensures Ready(rows, a) == Ready(rows, b)
  {
    Sums.SumDependsOnMembers(rows.Keys, id => Weight(rows, a, maxAttempts, id), id => Weight(rows, b, maxAttempts, id));
  }

  lemma ReadyMeansWork(s: State, w: World, maxAttempts: int)
    requires Inv(s, maxAttempts) && Ready(s.rows, w) != {}
    ensures 0 < Work(s.rows, w, maxAttempts)
  {
    var id :| id in Ready(s.rows, w);
    assert RowMatchesSends(s, id, maxAttempts);
    Sums.SumTakesOut(s.rows.Keys, x => Weight(s.rows, w, maxAttempts, x), id);
  }

  // ----- Which answers hold a row

  /** The other rows of a pool that are no younger than a row: the ones an answer may list before it. */
  ghost function UpTo(rows: Table, pool: set<Id>, id: Id): set<Id>
    requires pool <= rows.Keys && id in rows
  {
    set other | other in pool && other != id && rows[other].createdAt <= rows[id].createdAt
  }

  /** With a full answer's worth of a pool no younger than a row, no row of an answer is younger. */
  lemma OldestAreUpTo(rows: Table, pool: set<Id>, limit: nat, batch: seq<Id>, id: Id)
    requires pool <= rows.Keys && id in rows && id !in pool
    requires AreOldest(rows, pool, limit, batch) && limit <= |UpTo(rows, pool, id)|
    ensures |batch| == limit && forall i :: 0 <= i < |batch| ==> rows[batch[i]].createdAt <= rows[id].createdAt
  {
    var early := UpTo(rows, pool, id);
    Collections.SubsetIsNoLarger(early, pool);
    forall i | 0 <= i < |batch|
      ensures rows[batch[i]].createdAt <= rows[id].createdAt
    {
      if rows[id].createdAt < rows[batch[i]].createdAt {
        assert forall other :: other in early ==> other in batch;
        assert batch[i] !in early;
        DistinctIdsCover(batch, early + {batch[i]});
      }
    }
  }

  /** An answer without a PENDING row is full, and holds nothing younger than it. */
  lemma MissingRowComesLater(rows: Table, limit: nat, batch: seq<Id>, id: Id)
    requires id in Pending(rows) && IsBatch(rows, limit, batch) && id !in batch
    ensures |batch| == limit && forall i :: 0 <= i < |batch| ==> batch[i] in UpTo(rows, Pending(rows), id)
  {
    if |batch| == |Pending(rows)| {
      DistinctIdsFit(batch, Pending(rows));
    }
  }

  /** The next run takes up a row, whatever the query answers, exactly when fewer than `limit` others are no younger. */
  lemma InEveryAnswerIff(rows: Table, limit: nat, id: Id)
    requires id in Pending(rows)
    ensures (forall batch :: IsBatch(rows, limit, batch) ==> id in batch) <==> |UpTo(rows, Pending(rows), id)| < limit
  {
    if |UpTo(rows, Pending(rows), id)| < limit {
      forall batch | IsBatch(rows, limit, batch)
        ensures id in batch
      {
        if id !in batch {
          MissingRowComesLater(rows, limit, batch, id);
          DistinctIdsFit(batch, UpTo(rows, Pending(rows), id));
        }
      }
    } else {
      assert UpTo(rows, Pending(rows) - {id}, id) == UpTo(rows, Pending(rows), id);
      var batch := AnswerWithout(rows, limit, Pending(rows) - {id}, id);
    }
  }

  /** Rows that fill an answer and are no younger than some row make an answer without it. */
  lemma AnswerWithout(rows: Table, limit: nat, pool: set<Id>, id: Id) returns (batch: seq<Id>)
    requires id in Pending(rows) && pool <= Pending(rows) - {id} && limit <= |UpTo(rows, pool, id)|
    requires forall other :: other in Pending(rows) && other !in pool ==>
               other == id || limit <= |UpTo(rows, pool, other)|
    ensures IsBatch(rows, limit, batch) && id !in batch && forall i :: 0 <= i < |batch| ==> batch[i] in pool
  {
    batch := AnswerWith(rows, pool, limit, id);
    Collections.SubsetIsNoLarger(UpTo(rows, pool, id), pool);
    Collections.SubsetIsNoLarger(pool, Pending(rows));
    forall i, other | 0 <= i < |batch| && other in Pending(rows) && other !in batch
      ensures rows[batch[i]].createdAt <= rows[other].createdAt
    {
      if other !in pool {
        OldestAreUpTo(rows, pool, limit, batch, other);
      }
    }
  }

  /** Some answer holds a row exactly when fewer than `limit` PENDING rows are older. */
  lemma InSomeAnswerIff(rows: Table, limit: nat, id: Id)
    requires id in Pending(rows)
    ensures (exists batch :: IsBatch(rows, limit, batch) && id in batch) <==> |Ahead(rows, id)| < limit
  {
    if |Ahead(rows, id)| < limit {
      var batch := AnswerWith(rows, Pending(rows), limit, id);
    } else {
      forall batch | IsBatch(rows, limit, batch)
        ensures id !in batch
      {
        OlderRowsFillTheAnswer(rows, limit, batch, id);
      }
    }
  }

  /** Behind a full answer's worth of older rows, an answer holds nothing but older rows. */
  lemma OlderRowsFillTheAnswer(rows: Table, limit: nat, batch: seq<Id>, id: Id)
    requires id in Pending(rows) && IsBatch(rows, limit, batch) && limit <= |Ahead(rows, id)|
    ensures forall i :: 0 <= i < |batch| ==> batch[i] in Ahead(rows, id)
  {
    var older := Ahead(rows, id);
    forall i | 0 <= i < |batch|
      ensures batch[i] in older
    {
      if batch[i] !in older {
        assert forall other :: other in older ==> other in batch;
        DistinctIdsCover(batch, older + {batch[i]});
      }
    }
  }

  // ----- One run

  /** The rows that stand in the way of a row for good: not deliverable, and no younger. */
  ghost function InTheWay(rows: Table, w: World, id: Id): set<Id>
    requires id in rows
  {
    UpTo(rows, Undeliverable(rows, w), id)
  }

  /**
  Progress of one run, exactly: whatever the query answers, something deliverable is taken up if and
  only if some deliverable row has fewer than `limit` undeliverable rows in its way.
  */
  lemma EveryRunProgressesIff(rows: Table, w: World, limit: nat)
    ensures (forall batch :: IsBatch(rows, limit, batch) ==> !NothingReadyIn(rows, w, batch))
            <==> exists id :: id in Ready(rows, w) && |InTheWay(rows, w, id)| < limit
  {
    if id :| id in Ready(rows, w) && |InTheWay(rows, w, id)| < limit {
      forall batch | IsBatch(rows, limit, batch)
        ensures !NothingReadyIn(rows, w, batch)
      {
        if NothingReadyIn(rows, w, batch) {
          assert id !in batch;
          MissingRowComesLater(rows, limit, batch, id);
          DistinctIdsFit(batch, InTheWay(rows, w, id));
        }
      }
    } else if id :| id in Ready(rows, w) {
      var batch := AnswerWithout(rows, limit, Undeliverable(rows, w), id);
      assert NothingReadyIn(rows, w, batch);
    } else {
      var batch := AnswerWith(rows, Pending(rows), limit, 0);
      forall i | 0 <= i < |batch|
        ensures !Deliverable(rows, w, batch[i])
      {
        assert batch[i] !in Ready(rows, w);
      }
      assert NothingReadyIn(rows, w, batch);
    }
  }

  /** A row with fewer than `limit` rows in its way gets something delivered in every run, itself or another. */
  lemma RunMakesProgress(s: State, w: World, batch: seq<Id>, limit: nat, maxAttempts: int, id: Id)
    requires Inv(s, maxAttempts) && IsBatch(s.rows, limit, batch)
    requires id in Ready(s.rows, w) && |InTheWay(s.rows, w, id)| < limit
    ensures Work(Dispatched(s, w, batch, maxAttempts).rows, w, maxAttempts) < Work(s.rows, w, maxAttempts)
  {
    EveryRunProgressesIff(s.rows, w, limit);
    assert !NothingReadyIn(s.rows, w, batch);
    DispatchWorks(s, w, batch, maxAttempts);
  }

  // ----- Many runs

  /** Runs of the dispatcher only, with the channels as in `w`. */
  ghost predicate IsDispatching(s: State, w: World, events: seq<Event>, limit: nat, maxAttempts: int) {
    && IsRun(s, events, limit, maxAttempts)
    && forall k :: 0 <= k < |events| ==> events[k].Dispatch? && SameRoutes(events[k].world, w)
  }

  lemma {:induction false} UndeliverableIsUntouched(s: State, w: World, batch: seq<Id>, maxAttempts: int, id: Id)
    requires id in s.rows && !Deliverable(s.rows, w, id)
    ensures id in Dispatched(s, w, batch, maxAttempts).rows
    ensures Dispatched(s, w, batch, maxAttempts).rows[id] == s.rows[id]
  {
    if batch == [] {
    } else {
      UndeliverableIsUntouched(s, w, batch[..|batch| - 1], maxAttempts, id);
    }
  }

  /** What a run cannot change: identities, what is deliverable, and the rows in the way of others. */
  ghost predicate Continues(s: State, w: World, after: State, maxAttempts: int) {
    && Inv(after, maxAttempts)
    && SameRows(s.rows, after.rows)
    && Undeliverable(after.rows, w) == Undeliverable(s.rows, w)
    && Ready(after.rows, w) <= Ready(s.rows, w)
  }

  lemma RunContinues(s: State, w: World, e: Event, limit: nat, maxAttempts: int)
    requires 1 <= maxAttempts && Inv(s, maxAttempts) && e.Dispatch? && CanHappen(s, e, limit) && SameRoutes(e.world, w)
    ensures Continues(s, w, Step(s, e, maxAttempts), maxAttempts)
    ensures forall id :: id in s.rows && id !in e.batch ==> Step(s, e, maxAttempts).rows[id] == s.rows[id]
  {
    hide Inv, Dispatched, AreOldest, Ready, Undeliverable, Pending;
    StepKeepsInv(s, e, limit, maxAttempts);
    DispatchTouchesBatch(s, e.world, e.batch, maxAttempts);
    BatchIsPending(s.rows, limit, e.batch);
    forall id | id in s.rows && !Deliverable(s.rows, w, id)
      ensures Step(s, e, maxAttempts).rows[id] == s.rows[id]
    {
      UndeliverableIsUntouched(s, e.world, e.batch, maxAttempts, id);
    }
    SetsContinue(s.rows, w, Step(s, e, maxAttempts).rows, e.batch);
  }

  /** Rows that only change inside a batch of PENDING ones, and only when deliverable. */
  lemma SetsContinue(before: Table, w: World, after: Table, batch: seq<Id>)
    requires SameRows(before, after) && forall id :: id in batch ==> id in Pending(before)
    requires forall id :: id in before && (id !in batch || !Deliverable(before, w, id)) ==> after[id] == before[id]
    ensures Undeliverable(after, w) == Undeliverable(before, w) && Ready(after, w) <= Ready(before, w)
  {
    forall id | id in Pending(after)
      ensures id in Pending(before) && (Deliverable(after, w, id) <==> Deliverable(before, w, id))
    {
      if id !in batch {
        assert after[id] == before[id];
      }
    }
  }

  lemma BatchIsPending(rows: Table, limit: nat, batch: seq<Id>)
    requires IsBatch(rows, limit, batch)
    ensures forall id :: id in batch ==> id in Pending(rows)
  {
  }

  lemma ContinuesOn(a: State, b: State, c: State, w: World, maxAttempts: int)
    requires Continues(a, w, b, maxAttempts) && Continues(b, w, c, maxAttempts)
    ensures Continues(a, w, c, maxAttempts)
  {
    hide Inv, Undeliverable, Ready;
  }

  lemma {:induction false} RunsContinue(s: State, w: World, events: seq<Event>, limit: nat, maxAttempts: int)
    requires 1 <= maxAttempts && Inv(s, maxAttempts) && IsDispatching(s, w, events, limit, maxAttempts)
    ensures Continues(s, w, After(s, events, maxAttempts), maxAttempts)
  {
    hide Inv, CanHappen, SameRoutes;
    if events == [] {
      hide Undeliverable, Ready;
      assert SameRows(s.rows, s.rows);
    } else {
      var n := |events| - 1;
      hide Continues, Step;
      RunPrefix(s, events, limit, maxAttempts, n);
      RunsContinue(s, w, events[..n], limit, maxAttempts);
      var middle := After(s, events[..n], maxAttempts);
      assert CanHappen(middle, events[n], limit);
      ContinuesMeansInv(s, w, middle, maxAttempts);
      RunContinues(middle, w, events[n], limit, maxAttempts);
      ContinuesOn(s, middle, Step(middle, events[n], maxAttempts), w, maxAttempts);
    }
  }

  /** The rows in the way stay in the way. */
  lemma ContinuesMeansInv(s: State, w: World, after: State, maxAttempts: int)
    requires Continues(s, w, after, maxAttempts)
    ensures Inv(after, maxAttempts) && after.rows.Keys == s.rows.Keys
    ensures forall id :: id in s.rows ==> InTheWay(after.rows, w, id) == InTheWay(s.rows, w, id)
    ensures forall id :: id in s.rows ==>
              OlderIn(after.rows, Undeliverable(after.rows, w), id) == OlderIn(s.rows, Undeliverable(s.rows, w), id)
  {
    hide Inv;
    forall id | id in s.rows
      ensures InTheWay(after.rows, w, id) == InTheWay(s.rows, w, id)
      ensures OlderIn(after.rows, Undeliverable(after.rows, w), id) == OlderIn(s.rows, Undeliverable(s.rows, w), id)
    {
      var stuck := Undeliverable(s.rows, w);
      assert after.rows[id].createdAt == s.rows[id].createdAt;
      assert forall other :: other in stuck ==> after.rows[other].createdAt == s.rows[other].createdAt;
    }
  }

  /** One more run after others. */
  lemma OneMoreRun(s: State, w: World, events: seq<Event>, e: Event, limit: nat, maxAttempts: int)
    requires IsDispatching(s, w, events, limit, maxAttempts) && e.Dispatch? && SameRoutes(e.world, w)
    requires CanHappen(After(s, events, maxAttempts), e, limit)
    ensures IsDispatching(s, w, events + [e], limit, maxAttempts)
    ensures After(s, events + [e], maxAttempts) == Step(After(s, events, maxAttempts), e, maxAttempts)
  {
    var longer := events + [e];
    OneStepMore(s, events, e, maxAttempts);
    hide CanHappen, SameRoutes, Step, After;
    forall k | 0 <= k < |longer|
      ensures CanHappen(After(s, longer[..k], maxAttempts), longer[k], limit)
    {
      assert longer[..k] == events[..k];
      if k < |events| {
        assert longer[k] == events[k];
      } else {
        assert events[..k] == events;
      }
    }
  }

  lemma OneStepMore(s: State, events: seq<Event>, e: Event, maxAttempts: int)
    ensures After(s, events + [e], maxAttempts) == Step(After(s, events, maxAttempts), e, maxAttempts)
  {
    hide Step;
    assert (events + [e])[..|events|] == events;
  }

  /** One run before others. */
  lemma {:induction false} RunFirst(s: State, e: Event, events: seq<Event>, maxAttempts: int)
    ensures After(s, [e] + events, maxAttempts) == After(Step(s, e, maxAttempts), events, maxAttempts)
  {
    hide Step;
    if events == [] {
      assert [e] + events == [e] && [e][..0] == [];
    } else {
      var n := |events| - 1;
      RunFirst(s, e, events[..n], maxAttempts);
      assert ([e] + events)[..n + 1] == [e] + events[..n];
    }
  }

  lemma DispatchingFirst(s: State, w: World, e: Event, events: seq<Event>, limit: nat, maxAttempts: int)
    requires e.Dispatch? && SameRoutes(e.world, w) && CanHappen(s, e, limit)
    requires IsDispatching(Step(s, e, maxAttempts), w, events, limit, maxAttempts)
    ensures IsDispatching(s, w, [e] + events, limit, maxAttempts)
  {
    hide CanHappen, SameRoutes, Step;
    var longer := [e] + events;
    forall k | 0 <= k < |longer|
      ensures CanHappen(After(s, longer[..k], maxAttempts), longer[k], limit)
    {
      if k == 0 {
        assert longer[..k] == [];
      } else {
        assert longer[..k] == [e] + events[..k - 1] && longer[k] == events[k - 1];
        RunFirst(s, e, events[..k - 1], maxAttempts);
      }
    }
  }

  // ----- Every row that is not starved is delivered or given up

  /** A PENDING row of a dispatching past was PENDING and as deliverable all along. */
  lemma StillReady(s: State, w: World, after: State, maxAttempts: int, id: Id)
    requires Continues(s, w, after, maxAttempts) && id in Ready(s.rows, w) && after.rows[id].status == PENDING
    ensures id in Ready(after.rows, w)
  {
  }

  /**
  Progress: a deliverable row with fewer than `limit` undeliverable rows in its way is SENT or FAILED
  after as many runs as there is work, whatever the notifier and the query answer.
  */
  lemma {:induction false} Drains(s: State, w: World, events: seq<Event>, limit: nat, maxAttempts: int, id: Id)
    requires 1 <= maxAttempts && Inv(s, maxAttempts) && IsDispatching(s, w, events, limit, maxAttempts)
    requires id in Ready(s.rows, w) && |InTheWay(s.rows, w, id)| < limit
    ensures var after := After(s, events, maxAttempts);
            && id in after.rows
            && (after.rows[id].status == PENDING ==>
                  Work(after.rows, w, maxAttempts) + |events| <= Work(s.rows, w, maxAttempts))
            && (Work(s.rows, w, maxAttempts) <= |events| ==> after.rows[id].status != PENDING)
  {
    hide Inv, Step, CanHappen, SameRoutes, Continues, Ready, InTheWay, Undeliverable;
    var after := After(s, events, maxAttempts);
    RunsContinue(s, w, events, limit, maxAttempts);
    ContinuesMeansInv(s, w, after, maxAttempts);
    ReadyMeansRow(s.rows, w, id);
    if events == [] {
    } else {
      var n := |events| - 1;
      var middle := After(s, events[..n], maxAttempts);
      RunPrefix(s, events, limit, maxAttempts, n);
      Drains(s, w, events[..n], limit, maxAttempts, id);
      assert CanHappen(middle, events[n], limit);
      RunsContinue(s, w, events[..n], limit, maxAttempts);
      if after.rows[id].status == PENDING {
        PendingBefore(middle, w, events[n], limit, maxAttempts, id, s);
        RunUsesWork(s, w, middle, events[n], limit, maxAttempts, id);
      }
    }
    if after.rows[id].status == PENDING {
      StillReady(s, w, after, maxAttempts, id);
      ReadyMeansWork(after, w, maxAttempts);
    }
  }

  lemma ReadyMeansRow(rows: Table, w: World, id: Id)
    requires id in Ready(rows, w)
    ensures id in rows && rows[id].status == PENDING
  {
  }

  lemma PendingBefore(s: State, w: World, e: Event, limit: nat, maxAttempts: int, id: Id, start: State)
    requires 1 <= maxAttempts && Continues(start, w, s, maxAttempts) && e.Dispatch? && CanHappen(s, e, limit)
    requires SameRoutes(e.world, w) && id in s.rows
    ensures id in Step(s, e, maxAttempts).rows
    ensures Step(s, e, maxAttempts).rows[id].status == PENDING ==> s.rows[id].status == PENDING
  {
    hide Inv, Step, CanHappen, SameRoutes;
    RunContinues(s, w, e, limit, maxAttempts);
    var after := Step(s, e, maxAttempts);
    if after.rows[id].status == PENDING {
      assert id in Pending(after.rows);
      assert id in Ready(after.rows, w) || id in Undeliverable(after.rows, w);
      assert id in Pending(s.rows);
    }
  }

  lemma RunUsesWork(start: State, w: World, s: State, e: Event, limit: nat, maxAttempts: int, id: Id)
    requires 1 <= maxAttempts && Continues(start, w, s, maxAttempts) && e.Dispatch? && CanHappen(s, e, limit)
    requires SameRoutes(e.world, w) && id in Ready(start.rows, w) && |InTheWay(start.rows, w, id)| < limit
    requires id in s.rows && s.rows[id].status == PENDING
    ensures Work(Step(s, e, maxAttempts).rows, w, maxAttempts) < Work(s.rows, w, maxAttempts)
  {
    ContinuesMeansInv(start, w, s, maxAttempts);
    StillReady(start, w, s, maxAttempts, id);
    RoutesDecideWork(s.rows, e.world, w, maxAttempts);
    RoutesDecideWork(Step(s, e, maxAttempts).rows, e.world, w, maxAttempts);
    hide Inv, Work, Ready, AreOldest;
    RunMakesProgress(s, e.world, e.batch, limit, maxAttempts, id);
  }

  // ----- Every other row may be starved

  /** With `limit` rows in its way, a row may be passed over by any number of runs. */
  lemma {:induction false} MayStarve(
    s: State, w: World, limit: nat, maxAttempts: int, id: Id, n: nat)
    returns (events: seq<Event>)
    requires 1 <= maxAttempts && Inv(s, maxAttempts)
    requires id in Ready(s.rows, w) && limit <= |InTheWay(s.rows, w, id)|
    ensures |events| == n && IsDispatching(s, w, events, limit, maxAttempts)
    ensures id in After(s, events, maxAttempts).rows && After(s, events, maxAttempts).rows[id] == s.rows[id]
  {
    hide Inv, Step, CanHappen, SameRoutes, Continues, InTheWay, Undeliverable;
    if n == 0 {
      events := [];
    } else {
      var earlier := MayStarve(s, w, limit, maxAttempts, id, n - 1);
      var middle := After(s, earlier, maxAttempts);
      RunsContinue(s, w, earlier, limit, maxAttempts);
      var e := PassingRun(s, w, middle, limit, maxAttempts, id);
      OneMoreRun(s, w, earlier, e, limit, maxAttempts);
      events := earlier + [e];
    }
  }

  /** A run that passes over a row which has enough others in its way. */
  lemma PassingRun(start: State, w: World, s: State, limit: nat, maxAttempts: int, id: Id) returns (e: Event)
    requires 1 <= maxAttempts && Continues(start, w, s, maxAttempts)
    requires id in Ready(start.rows, w) && limit <= |InTheWay(start.rows, w, id)|
    requires id in s.rows && s.rows[id] == start.rows[id]
    ensures e.Dispatch? && SameRoutes(e.world, w) && CanHappen(s, e, limit)
    ensures id in Step(s, e, maxAttempts).rows && Step(s, e, maxAttempts).rows[id] == s.rows[id]
  {
    ContinuesMeansInv(start, w, s, maxAttempts);
    hide Inv, Dispatched;
    assert id in Pending(s.rows);
    var others := Pending(s.rows) - {id};
    assert InTheWay(s.rows, w, id) <= UpTo(s.rows, others, id);
    Collections.SubsetIsNoLarger(InTheWay(s.rows, w, id), UpTo(s.rows, others, id));
    var batch := AnswerWithout(s.rows, limit, others, id);
    e := Dispatch(w, batch);
    RunContinues(s, w, e, limit, maxAttempts);
  }

  ghost predicate Settles(s: State, w: World, limit: nat, maxAttempts: int, id: Id, events: seq<Event>) {
    IsDispatching(s, w, events, limit, maxAttempts) && Work(s.rows, w, maxAttempts) <= |events| ==>
      id in After(s, events, maxAttempts).rows && After(s, events, maxAttempts).rows[id].status != PENDING
  }

  /**
  The promise that a PENDING row is retried, exactly: every long enough sequence of runs brings a
  deliverable row to SENT or FAILED if and only if fewer than `limit` undeliverable rows are in its way.
  */
  lemma DeliveredIffNotBlocked(s: State, w: World, limit: nat, maxAttempts: int, id: Id)
    requires 1 <= maxAttempts && Inv(s, maxAttempts) && id in Ready(s.rows, w)
    ensures |InTheWay(s.rows, w, id)| < limit <==> forall events :: Settles(s, w, limit, maxAttempts, id, events)
  {
    hide Inv, IsDispatching, InTheWay, Work;
    if |InTheWay(s.rows, w, id)| < limit {
      forall events
        ensures Settles(s, w, limit, maxAttempts, id, events)
      {
        if IsDispatching(s, w, events, limit, maxAttempts) {
          Drains(s, w, events, limit, maxAttempts, id);
        }
      }
    } else {
      var events := MayStarve(s, w, limit, maxAttempts, id, Work(s.rows, w, maxAttempts));
      assert !Settles(s, w, limit, maxAttempts, id, events);
    }
  }

  // ----- Rows that no run ever tries

  ghost predicate LeavesAlone(s: State, w: World, limit: nat, maxAttempts: int, id: Id, events: seq<Event>)
    requires id in s.rows
  {
    IsDispatching(s, w, events, limit, maxAttempts) ==>
      id in After(s, events, maxAttempts).rows && After(s, events, maxAttempts).rows[id] == s.rows[id]
  }

  /** Behind `limit` older undeliverable rows a row stays as it is through all runs. */
  lemma {:induction false} StaysBehind(s: State, w: World, limit: nat, maxAttempts: int, id: Id, events: seq<Event>)
    requires 1 <= maxAttempts && Inv(s, maxAttempts) && id in Ready(s.rows, w)
    requires limit <= |OlderIn(s.rows, Undeliverable(s.rows, w), id)|
    ensures LeavesAlone(s, w, limit, maxAttempts, id, events)
  {
    hide Inv, Step, CanHappen, SameRoutes, Continues, Undeliverable;
    if events != [] && IsDispatching(s, w, events, limit, maxAttempts) {
      var n := |events| - 1;
      var middle := After(s, events[..n], maxAttempts);
      RunPrefix(s, events, limit, maxAttempts, n);
      StaysBehind(s, w, limit, maxAttempts, id, events[..n]);
      RunsContinue(s, w, events[..n], limit, maxAttempts);
      assert CanHappen(middle, events[n], limit);
      RunStaysBehind(s, w, middle, events[n], limit, maxAttempts, id);
    }
  }

  lemma RunStaysBehind(start: State, w: World, s: State, e: Event, limit: nat, maxAttempts: int, id: Id)
    requires 1 <= maxAttempts && Continues(start, w, s, maxAttempts) && id in Ready(start.rows, w)
    requires limit <= |OlderIn(start.rows, Undeliverable(start.rows, w), id)|
    requires e.Dispatch? && SameRoutes(e.world, w) && CanHappen(s, e, limit)
    requires id in s.rows && s.rows[id] == start.rows[id]
    ensures id in Step(s, e, maxAttempts).rows && Step(s, e, maxAttempts).rows[id] == s.rows[id]
  {
    ContinuesMeansInv(start, w, s, maxAttempts);
    hide Inv, Dispatched;
    var stuck := OlderIn(s.rows, Undeliverable(s.rows, w), id);
    assert id in Pending(s.rows) && stuck <= Ahead(s.rows, id);
    Collections.SubsetIsNoLarger(stuck, Ahead(s.rows, id));
    OlderRowsFillTheAnswer(s.rows, limit, e.batch, id);
    assert id !in e.batch;
    RunContinues(s, w, e, limit, maxAttempts);
  }

  /** A row that a run takes up is changed by it. */
  lemma {:induction false} TakenUpIsChanged(s: State, w: World, batch: seq<Id>, maxAttempts: int, id: Id)
    requires id in batch && id in Pending(s.rows) && Deliverable(s.rows, w, id)
    requires forall i, j :: 0 <= i < j < |batch| ==> batch[i] != batch[j]
    ensures id in Dispatched(s, w, batch, maxAttempts).rows
    ensures Dispatched(s, w, batch, maxAttempts).rows[id] != s.rows[id]
  {
    var n := |batch| - 1;
    var middle := Dispatched(s, w, batch[..n], maxAttempts);
    DispatchTouchesBatch(s, w, batch[..n], maxAttempts);
    if batch[n] == id {
      assert id !in batch[..n];
    } else {
      assert id in batch[..n];
      TakenUpIsChanged(s, w, batch[..n], maxAttempts, id);
    }
  }

  /** With fewer than `limit` older undeliverable rows before it, some sequence of runs takes the row up. */
  lemma {:induction false} MayBeTried(
    s: State, w: World, limit: nat, maxAttempts: int, id: Id)
    returns (events: seq<Event>)
    requires 1 <= maxAttempts && Inv(s, maxAttempts) && id in Ready(s.rows, w)
    requires |OlderIn(s.rows, Undeliverable(s.rows, w), id)| < limit
    ensures IsDispatching(s, w, events, limit, maxAttempts) && !LeavesAlone(s, w, limit, maxAttempts, id, events)
    decreases Work(s.rows, w, maxAttempts)
  {
    hide Inv, Dispatched, Undeliverable, Work;
    var batch := AnswerWith(s.rows, Pending(s.rows), limit, id);
    var e := Dispatch(w, batch);
    var after := Step(s, e, maxAttempts);
    NothingDispatched(s, w, limit, maxAttempts);
    NothingDispatched(after, w, limit, maxAttempts);
    RunContinues(s, w, e, limit, maxAttempts);
    if id in batch {
      TakenUpIsChanged(s, w, batch, maxAttempts, id);
      events := [e];
      OneMoreRun(s, w, [], e, limit, maxAttempts);
      assert [] + [e] == [e];
    } else {
      RowsBeforeAreWork(s, w, limit, batch, maxAttempts, id);
      ContinuesMeansInv(s, w, after, maxAttempts);
      var rest := MayBeTried(after, w, limit, maxAttempts, id);
      events := [e] + rest;
      DispatchingFirst(s, w, e, rest, limit, maxAttempts);
      RunFirst(s, e, rest, maxAttempts);
    }
  }

  lemma NothingDispatched(s: State, w: World, limit: nat, maxAttempts: int)
    ensures IsDispatching(s, w, [], limit, maxAttempts) && After(s, [], maxAttempts) == s
  {
  }

  /** An answer that passes over such a row holds something deliverable, and leaves the row ready. */
  lemma RowsBeforeAreWork(s: State, w: World, limit: nat, batch: seq<Id>, maxAttempts: int, id: Id)
    requires Inv(s, maxAttempts) && id in Ready(s.rows, w) && id !in batch && IsBatch(s.rows, limit, batch)
    requires |Ahead(s.rows, id)| < limit ==> id in batch
    requires |OlderIn(s.rows, Undeliverable(s.rows, w), id)| < limit
    ensures Work(Dispatched(s, w, batch, maxAttempts).rows, w, maxAttempts) < Work(s.rows, w, maxAttempts)
    ensures id in Ready(Dispatched(s, w, batch, maxAttempts).rows, w)
  {
    if NothingReadyIn(s.rows, w, batch) {
      OlderRowsFillTheAnswer(s.rows, limit, batch, id);
      MissingRowComesLater(s.rows, limit, batch, id);
      DistinctIdsFit(batch, OlderIn(s.rows, Undeliverable(s.rows, w), id));
    }
    DispatchWorks(s, w, batch, maxAttempts);
    DispatchTouchesBatch(s, w, batch, maxAttempts);
  }

  /** No run ever tries a deliverable row if and only if at least `limit` undeliverable rows are older. */
  lemma NeverTriedIff(s: State, w: World, limit: nat, maxAttempts: int, id: Id)
    requires 1 <= maxAttempts && Inv(s, maxAttempts) && id in Ready(s.rows, w)
    ensures limit <= |OlderIn(s.rows, Undeliverable(s.rows, w), id)|
            <==> forall events :: LeavesAlone(s, w, limit, maxAttempts, id, events)
  {
    hide Inv, LeavesAlone;
    if limit <= |OlderIn(s.rows, Undeliverable(s.rows, w), id)| {
      forall events
        ensures LeavesAlone(s, w, limit, maxAttempts, id, events)
      {
        StaysBehind(s, w, limit, maxAttempts, id, events);
      }
    } else {
      var events := MayBeTried(s, w, limit, maxAttempts, id);
      assert !LeavesAlone(s, w, limit, maxAttempts, id, events);
    }
  }

  /** Two waiting messages, of which the older one can never be delivered. */
  const STUCK := State(
    map[0 := Notification(0, 0, 0, PENDING, 0, None, None), 1 := Notification(1, 0, 1, PENDING, 0, None, None)], [])

  /** The documented retry fails for the younger message of two, with one message to a run. */
  lemma RetryPromiseFails(w: World, maxAttempts: int, events: seq<Event>)
    requires 1 <= maxAttempts && !w.deliverable(0, 0) && w.deliverable(1, 0)
    ensures Inv(STUCK, maxAttempts) && 1 in Ready(STUCK.rows, w)
    ensures LeavesAlone(STUCK, w, 1, maxAttempts, 1, events)
  {
    hide LeavesAlone;
    assert OlderIn(STUCK.rows, Undeliverable(STUCK.rows, w), 1) == {0};
    NeverTriedIff(STUCK, w, 1, maxAttempts, 1);
  }
}
