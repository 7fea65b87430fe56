/** The price history of the property repository: the changes of each property's observed prices. */
module PriceHistory {
  import opened Wrappers
  import opened Tables
  import Decimals
  import Rules

  /** One call of `add`. */
  datatype Observation = Observation(property: Rules.Property, now: Time)

  function Stored(db: Db, observations: seq<Observation>): Db {
    if observations == [] then db
    else
      var last := observations[|observations| - 1];
      PropertyAdded(Stored(db, observations[..|observations| - 1]), last.property, last.now)
  }

  /** The history rows of one property, in order. */
  function PricesOf(prices: seq<PriceRow>, id: PropertyId): seq<Rules.Money> {
    if prices == [] then []
    else
      var last := prices[|prices| - 1];
      PricesOf(prices[..|prices| - 1], id) + if last.propertyId == id then [last.price] else []
  }

  /** The observations of one property, in order. */
  function ObservationsOf(observations: seq<Observation>, id: PropertyId): seq<Observation> {
    if observations == [] then []
    else
      var last := observations[|observations| - 1];
      ObservationsOf(observations[..|observations| - 1], id) + if last.property.id == id then [last] else []
  }

  predicate IsChange(before: Option<Rules.Money>, price: Rules.Money) {
    before.None? || !SamePrice(before.value, price)
  }

  /** The known prices that differ from the observation just before them. */
  function Changes(seen: seq<Observation>): seq<Rules.Money> {
    if seen == [] then []
    else
      var n := |seen| - 1;
      var price := seen[n].property.price;
      Changes(seen[..n])
      + if price.Some? && (n == 0 || IsChange(seen[n - 1].property.price, price.value)) then [price.value] else []
  }

  /** What the tables hold of one property after its observations. */
  ghost predicate Tells(db: Db, seen: seq<Observation>, id: PropertyId) {
    && PricesOf(db.prices, id) == Changes(seen)
    && (id in db.properties <==> seen != [])
    && (seen != [] ==>
          db.properties[id] == PropertyRow(seen[|seen| - 1].property, seen[0].now, seen[|seen| - 1].now))
  }

  lemma AddingTells(db: Db, seen: seq<Observation>, id: PropertyId, last: Observation)
    requires Tells(db, seen, id)
    ensures Tells(PropertyAdded(db, last.property, last.now),
                  seen + if last.property.id == id then [last] else [], id)
  {
    hide Decimals.Value, SamePrice;
    var after := PropertyAdded(db, last.property, last.now);
    PricesGrow(db, last, id);
    if last.property.id == id {
      assert (seen + [last])[..|seen|] == seen;
    } else {
      assert seen + [] == seen;
    }
  }

  lemma PricesGrow(db: Db, last: Observation, id: PropertyId)
    ensures var p := last.property;
            PricesOf(PropertyAdded(db, p, last.now).prices, id)
            == PricesOf(db.prices, id)
               + if p.id == id && p.price.Some? && PriceChanged(Existing(db, id), p.price.value)
                 then [p.price.value] else []
  {
    hide PriceChanged;
    var after := PropertyAdded(db, last.property, last.now).prices;
    if after != db.prices {
      assert after[..|after| - 1] == db.prices;
    }
  }

  /**
  The history of a property is exactly the changes of its observed prices, whatever is stored of other
  properties in between; its row is the last observation, with the times of the first and the last.
  */
  lemma {:induction false} HistoryIsTheChanges(db: Db, observations: seq<Observation>, id: PropertyId)
    requires db.properties == map[] && db.prices == []
    ensures Tells(Stored(db, observations), ObservationsOf(observations, id), id)
  {
    hide PropertyAdded, Tells;
    if observations == [] {
      NothingTold(db, id);
    } else {
      var n := |observations| - 1;
      HistoryIsTheChanges(db, observations[..n], id);
      AddingTells(Stored(db, observations[..n]), ObservationsOf(observations[..n], id), id, observations[n]);
    }
  }

  lemma NothingTold(db: Db, id: PropertyId)
    requires db.properties == map[] && db.prices == []
    ensures Tells(db, [], id)
  {
  }

  /** Observations in which the price is always known. */
  predicate AllKnown(seen: seq<Observation>) {
    forall i :: 0 <= i < |seen| ==> seen[i].property.price.Some?
  }

  /** While the price stays known, no two rows in a row show the same price, and the last shows the current one. */
  lemma {:induction false} KnownPricesNeverRepeat(seen: seq<Observation>)
    requires AllKnown(seen) && seen != []
    ensures Changes(seen) != []
    ensures SamePrice(Changes(seen)[|Changes(seen)| - 1], seen[|seen| - 1].property.price.value)
    ensures forall i :: 0 < i < |Changes(seen)| ==> !SamePrice(Changes(seen)[i - 1], Changes(seen)[i])
  {
    hide Decimals.Value;
    var n := |seen| - 1;
    var earlier, price := Changes(seen[..n]), seen[n].property.price.value;
    if n == 0 {
      assert Changes(seen) == [price];
    } else {
      KnownPricesNeverRepeat(seen[..n]);
      if SamePrice(seen[n - 1].property.price.value, price) {
        assert Changes(seen) == earlier;
      } else {
        assert Changes(seen) == earlier + [price];
      }
    }
  }

  /** Two successive known observations of one price, with unknown ones between them. */
  predicate Returns(seen: seq<Observation>, j: nat, k: nat) {
    && j + 1 < k < |seen|
    && seen[j].property.price.Some? && seen[k].property.price.Some?
    && SamePrice(seen[j].property.price.value, seen[k].property.price.value)
    && forall l :: j < l < k ==> seen[l].property.price.None?
  }

  /** The last observation returns to an earlier price. */
  ghost predicate ReturnsAtLast(seen: seq<Observation>)
    requires seen != []
  {
    var n: nat := |seen| - 1;
    exists j :: Returns(seen, j, n)
  }

  /** Row i of a history shows the price of the row before it. */
  predicate Repeats(rows: seq<Rules.Money>, i: int) {
    0 < i < |rows| && SamePrice(rows[i - 1], rows[i])
  }

  /** The last row shows the price of the last known observation. */
  lemma {:induction false} LastRowIsLastKnown(seen: seq<Observation>, j: nat)
    requires IsLastKnown(seen, j)
    ensures Changes(seen) != []
    ensures SamePrice(Changes(seen)[|Changes(seen)| - 1], seen[j].property.price.value)
  {
    hide Decimals.Value;
    var n := |seen| - 1;
    var earlier, price := Changes(seen[..n]), seen[j].property.price.value;
    if j < n {
      LastRowIsLastKnown(seen[..n], j);
      assert Changes(seen) == earlier;
    } else if n > 0 && seen[n - 1].property.price.Some? {
      LastRowIsLastKnown(seen[..n], n - 1);
      assert SamePrice(seen[n - 1].property.price.value, price) ==> Changes(seen) == earlier;
    } else {
      assert Changes(seen) == earlier + [price];
    }
  }

  /** The last known observation, if the history has a row at all. */
  lemma {:induction false} LastKnown(seen: seq<Observation>) returns (j: nat)
    requires Changes(seen) != []
    ensures IsLastKnown(seen, j)
  {
    hide SamePrice;
    var n := |seen| - 1;
    j := n;
    if seen[n].property.price.None? {
      j := LastKnown(seen[..n]);
    }
  }

  /** What one more observation adds: a repeated row exactly when it returns to the last known price. */
  lemma LastRowRepeatsIff(seen: seq<Observation>)
    requires seen != []
    ensures var n, rows := |seen| - 1, Changes(seen);
            (|rows| > |Changes(seen[..n])| && Repeats(rows, |rows| - 1)) <==> ReturnsAtLast(seen)
  {
    hide Changes, SamePrice, ReturnsAtLast, Repeats;
    if Changes(seen[..|seen| - 1]) == [] {
      FirstRowRepeatsNothing(seen);
    } else {
      var j := LastKnown(seen[..|seen| - 1]);
      LastRowRepeats(seen, j);
    }
  }

  predicate IsLastKnown(seen: seq<Observation>, j: nat) {
    && j < |seen| && seen[j].property.price.Some?
    && forall l :: j < l < |seen| ==> seen[l].property.price.None?
  }

  lemma FirstRowRepeatsNothing(seen: seq<Observation>)
    requires seen != [] && Changes(seen[..|seen| - 1]) == []
    ensures |Changes(seen)| <= 1 && !Repeats(Changes(seen), |Changes(seen)| - 1)
    ensures !ReturnsAtLast(seen)
  {
    hide Changes, SamePrice;
    OneRowMore(seen);
    if ReturnsAtLast(seen) {
      var n: nat := |seen| - 1;
      var i :| Returns(seen, i, n);
      LastRowIsLastKnown(seen[..n], i);
    }
  }

  /** Whether the last observation is recorded, and what the history is then. */
  lemma OneRowMore(seen: seq<Observation>)
    requires seen != []
    ensures var n, price := |seen| - 1, seen[|seen| - 1].property.price;
            Changes(seen) == Changes(seen[..n])
              + if price.Some? && (n == 0 || IsChange(seen[n - 1].property.price, price.value))
                then [price.value] else []
  {
    hide SamePrice;
  }

  lemma MoneyLaws(a: Rules.Money, b: Rules.Money, c: Rules.Money)
    requires SamePrice(a, b)
    ensures SamePrice(a, c) <==> SamePrice(b, c)
  {
    hide Decimals.Value;
  }

  lemma LastRowRepeats(seen: seq<Observation>, j: nat)
    requires seen != [] && Changes(seen[..|seen| - 1]) != []
    requires IsLastKnown(seen[..|seen| - 1], j)
    ensures var n, rows := |seen| - 1, Changes(seen);
            (|rows| > |Changes(seen[..n])| && Repeats(rows, |rows| - 1)) <==> ReturnsAtLast(seen)
  {
    hide Changes, SamePrice;
    var n: nat := |seen| - 1;
    LastRowIsLastKnown(seen[..n], j);
    assert forall l :: j < l < n ==> seen[l] == seen[..n][l];
    var earlier, rows := Changes(seen[..n]), Changes(seen);
    OneRowMore(seen);
    assert forall i :: Returns(seen, i, n) ==> i == j;
    if seen[n].property.price.Some? {
      MoneyLaws(earlier[|earlier| - 1], seen[j].property.price.value, seen[n].property.price.value);
      if |rows| > |earlier| {
        assert Repeats(rows, |rows| - 1) <==> Returns(seen, j, n);
      }
    }
  }

  /**
  Repeated prices, exactly: some two neighbouring rows of a history show the same price if and only if
  two successive known observations of one price have unknown ones between them.
  */
  lemma {:induction false} HistoryRepeatsIff(seen: seq<Observation>)
    ensures (exists i :: Repeats(Changes(seen), i)) <==> (exists j, k :: Returns(seen, j, k))
  {
    hide SamePrice;
    if seen == [] {
      assert Changes(seen) == [];
    } else {
      var n := |seen| - 1;
      var earlier, rows := Changes(seen[..n]), Changes(seen);
      HistoryRepeatsIff(seen[..n]);
      LastRowRepeatsIff(seen);
      hide Changes;
      assert forall i :: Repeats(earlier, i) ==> Repeats(rows, i);
      assert forall i :: Repeats(rows, i) ==> Repeats(earlier, i) || (|rows| > |earlier| && i == |rows| - 1);
      assert forall j, k :: Returns(seen[..n], j, k) ==> Returns(seen, j, k);
      assert forall j, k :: Returns(seen, j, k) ==> Returns(seen[..n], j, k) || k == n;
    }
  }

  /** An unknown price in between makes the same price count as a change. */
  lemma UnknownPriceRepeats(known: Observation, unknown: Observation)
    requires known.property.price.Some? && unknown.property.price.None?
    ensures Changes([known, unknown, known]) == [known.property.price.value, known.property.price.value]
  {
    var price := known.property.price.value;
    assert [known, unknown, known][..2] == [known, unknown] && [known, unknown][..1] == [known] && [known][..0] == [];
    assert Changes([known]) == [price];
    assert Changes([known, unknown]) == [price];
  }

  /** Every row of a history was observed: its price, of its property, at its time. */
  lemma {:induction false} RowsAreObservations(db: Db, observations: seq<Observation>, row: PriceRow)
    requires db.prices == [] && row in Stored(db, observations).prices
    ensures exists seen :: && seen in observations && seen.property.id == row.propertyId
                           && seen.property.price == Some(row.price) && seen.now == row.observedAt
  {
    hide PriceChanged;
    var n := |observations| - 1;
    var last := observations[n];
    if row in Stored(db, observations[..n]).prices {
      RowsAreObservations(db, observations[..n], row);
    } else {
      assert last in observations;
    }
  }
}
