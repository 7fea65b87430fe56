/** The alert repository: one record per alert, its condition tree as rows. */
module AlertRepository {
  import opened Wrappers
  import opened Conditions
  import opened Alerts
  import CR = ConditionRows
  import RowIds

  datatype Record = Record(
    userId: nat, name: string, frequencySeconds: int, isActive: bool, lastRunAt: Option<int>,
    createdAt: int, updatedAt: int, rows: seq<CR.Row>, portals: set<string>)

  /** The record written over a stored one, with condition rows under the uuid4s from draw `next` on. */
  function Written(
    codec: CR.Codec, uuid4: nat -> CR.Uuid, stored: Option<Record>, alert: SearchAlert, next: nat): Record {
    Record(alert.userId, alert.name, alert.frequencySeconds, alert.isActive, alert.lastRunAt,
           alert.createdAt, alert.updatedAt, RowIds.NamedAll(uuid4, CR.Rows(codec, alert.conditions, None, 0, next)),
           (if stored.Some? then stored.value.portals else {}) + alert.portalSlugs)
  }

  class AlertRepository {
    const codec: CR.Codec
    const uuid4: nat -> CR.Uuid
    var table: map<nat, Record>
    var next: nat

    constructor (codec: CR.Codec, uuid4: nat -> CR.Uuid)
      ensures this.codec == codec && this.uuid4 == uuid4 && table == map[] && next == 0
    {
      this.codec, this.uuid4 := codec, uuid4;
      table, next := map[], 0;
    }

    method Add(alert: SearchAlert)
      modifies this
      ensures var stored := if alert.id in old(table) then Some(old(table)[alert.id]) else None;
              table == old(table)[alert.id := Written(codec, uuid4, stored, alert, old(next))]
      ensures next == old(next) + CR.Size(alert.conditions)
    {
      hide CR.Rows, RowIds.NamedAll;
      var writer := new RowIds.RowWriter(codec, uuid4, next);
      writer.BuildRows(alert.conditions, None, 0, None);
      assert writer.out == RowIds.NamedAll(uuid4, CR.Rows(codec, alert.conditions, None, 0, next));
      var portals := if alert.id in table then table[alert.id].portals else {};
      var slugs := alert.portalSlugs;
      while slugs != {}
        invariant slugs <= alert.portalSlugs
        invariant portals + slugs
               == (if alert.id in table then table[alert.id].portals else {}) + alert.portalSlugs
        decreases slugs
      {
        var slug :| slug in slugs;
        slugs := slugs - {slug};
        if slug !in portals {
          portals := portals + {slug};
        }
      }
      var record := Record(alert.userId, alert.name, alert.frequencySeconds, alert.isActive, alert.lastRunAt,
                           alert.createdAt, alert.updatedAt, writer.out, portals);
      ghost var stored := if alert.id in table then Some(table[alert.id]) else None;
      assert portals + {} == portals;
      assert record == Written(codec, uuid4, stored, alert, next);
      table := table[alert.id := record];
      next := writer.next;
    }

    /** The database returns the rows of a record in an order of its own. */
    method Get(id: nat, order: seq<CR.Row>) returns (alert: Option<Result<SearchAlert, Error>>)
      requires id in table ==> multiset(order) == multiset(table[id].rows) && CR.UniqueIds(order)
      ensures alert == if id in table then Some(Loaded(codec, id, table[id], order)) else None
    {
      if id !in table {
        return None;
      }
      var record := table[id];
      var tree := CR.RebuildTree(codec, order);
      if tree.Failure? {
        return Some(Failure(tree.error));
      }
      var loaded := SearchAlert(id, record.userId, record.name, record.portals, record.frequencySeconds, tree.value,
                                record.createdAt, record.updatedAt, record.isActive, record.lastRunAt);
      alert := Some(if IsValid(loaded) then Success(loaded) else Failure(ValueError));
    }
  }

  function Loaded(codec: CR.Codec, id: nat, record: Record, order: seq<CR.Row>): Result<SearchAlert, Error>
    requires CR.UniqueIds(order)
  {
    var tree :- CR.Rebuilt(codec, order);
    var alert := SearchAlert(id, record.userId, record.name, record.portals, record.frequencySeconds, tree,
                             record.createdAt, record.updatedAt, record.isActive, record.lastRunAt);
    if IsValid(alert) then Success(alert) else Failure(ValueError)
  }

  /** Saving a valid alert and loading it, over whatever was stored before, gives it back with no portal removed. */
  lemma SaveThenLoad(
    codec: CR.Codec, uuid4: nat -> CR.Uuid, stored: Option<Record>, alert: SearchAlert, next: nat, order: seq<CR.Row>)
    requires CR.Faithful(codec) && RowIds.Distinct(uuid4) && IsValid(alert) && alert.conditions.Group?
    requires WellFormed(alert.conditions)
    requires multiset(order) == multiset(Written(codec, uuid4, stored, alert, next).rows)
    ensures CR.UniqueIds(order)
    ensures Loaded(codec, alert.id, Written(codec, uuid4, stored, alert, next), order)
            == Success(alert.(portalSlugs := (if stored.Some? then stored.value.portals else {}) + alert.portalSlugs))
  {
    RowIds.RoundTrip(codec, uuid4, alert.conditions, next, order);
  }

  /**
  `set_portals` followed by a save is not kept when it removes a portal: the alert comes back exactly as
  saved if and only if every portal stored before is still among its portals.
  */
  lemma SavedAlertIsKeptIffNoPortalWasDropped(
    codec: CR.Codec, uuid4: nat -> CR.Uuid, stored: Option<Record>, alert: SearchAlert, next: nat, order: seq<CR.Row>)
    requires CR.Faithful(codec) && RowIds.Distinct(uuid4) && IsValid(alert) && alert.conditions.Group?
    requires WellFormed(alert.conditions)
    requires multiset(order) == multiset(Written(codec, uuid4, stored, alert, next).rows)
    ensures CR.UniqueIds(order)
    ensures Loaded(codec, alert.id, Written(codec, uuid4, stored, alert, next), order) == Success(alert)
            <==> (stored.Some? ==> stored.value.portals <= alert.portalSlugs)
  {
    SaveThenLoad(codec, uuid4, stored, alert, next, order);
    var before := if stored.Some? then stored.value.portals else {};
    assert before + alert.portalSlugs == alert.portalSlugs <==> before <= alert.portalSlugs;
    hide CR.Rebuilt;
    var merged := before + alert.portalSlugs;
    assert alert.(portalSlugs := merged) == alert <==> merged == alert.portalSlugs;
  }

  /** Saving and loading is the merge that the cycle works with. */
  lemma RepositoryIsTheMerge(
    codec: CR.Codec, uuid4: nat -> CR.Uuid, stored: Option<Record>, before: Option<SearchAlert>, alert: SearchAlert,
    next: nat, order: seq<CR.Row>)
    requires CR.Faithful(codec) && RowIds.Distinct(uuid4) && IsValid(alert) && alert.conditions.Group?
    requires WellFormed(alert.conditions)
    requires stored.Some? <==> before.Some?
    requires stored.Some? ==> stored.value.portals == before.value.portalSlugs
    requires multiset(order) == multiset(Written(codec, uuid4, stored, alert, next).rows)
    ensures CR.UniqueIds(order)
    ensures Loaded(codec, alert.id, Written(codec, uuid4, stored, alert, next), order) == Success(Merged(before, alert))
  {
    SaveThenLoad(codec, uuid4, stored, alert, next, order);
    hide CR.Rebuilt;
    assert {} + alert.portalSlugs == alert.portalSlugs;
  }

  /** Whatever is in the tables, only valid alerts are loaded. */
  lemma LoadedAlertsAreValid(codec: CR.Codec, id: nat, record: Record, order: seq<CR.Row>)
    requires CR.UniqueIds(order) && Loaded(codec, id, record, order).Success?
    ensures IsValid(Loaded(codec, id, record, order).value)
    ensures CR.Rebuilt(codec, order) == Success(Loaded(codec, id, record, order).value.conditions)
  {
    hide CR.Rebuilt, IsValid;
  }
}
