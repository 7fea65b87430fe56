/**
The database that an alert cycle works on, as maps and logs, and its repositories.

A unit of work is an object that holds the tables of one open transaction.  Fresh match ids come from
a counter; the normalizer, the digest of a payload and uuid5 are inputs.
*/
module Tables {
  import opened Wrappers
  import opened Decimals
  import opened Alerts
  import opened JsonValues
  import Rules

  type PropertyId = nat
  type MatchId = nat
  type Time = int

  type Payload = map<string, Json>

  datatype RawListing = RawListing(portal: string, externalId: string, url: string, scrapedAt: Time, payload: Payload)

  /** A normalized property, or None when none can be made, and the number of issues; or an error raised on the way. */
  datatype Normalized = Normalized(property: Option<Rules.Property>, issues: nat) | NormalizerError

  datatype Env = Env(
    lib: Rules.Library,
    reg: Rules.Registry,
    normalizerOf: string -> (RawListing -> Normalized),
    hash: Payload -> string,
    uuid5: string -> PropertyId,
    ttl: int)

  datatype ListingRow = ListingRow(
    propertyId: PropertyId, url: string, payload: Payload, contentHash: string, scrapedAt: Time)
  datatype PropertyRow = PropertyRow(property: Rules.Property, firstSeenAt: Time, lastSeenAt: Time)
  datatype PriceRow = PriceRow(propertyId: PropertyId, price: Rules.Money, observedAt: Time)
  datatype CacheRow = CacheRow(ids: seq<PropertyId>, fetchedAt: Time, expiresAt: Time)
  datatype MatchRow = MatchRow(id: MatchId, matchedAt: Time)
  datatype Channel = Channel(userId: nat, enabled: bool)

  datatype Execution =
    | Succeeded(portal: string, signature: string, found: nat, added: nat, issues: nat, startedAt: Time)
    | Failed(portal: string, signature: string, error: string, startedAt: Time)

  type ListingKey = (string, string)
  type MatchKey = (nat, PropertyId)
  type OutboxKey = (MatchId, nat)

  datatype Db = Db(
    listings: map<ListingKey, ListingRow>,
    properties: map<PropertyId, PropertyRow>,
    prices: seq<PriceRow>,
    cache: map<string, CacheRow>,
    executions: seq<Execution>,
    matches: map<MatchKey, MatchRow>,
    outbox: map<OutboxKey, Time>,
    alerts: map<nat, SearchAlert>,
    channels: map<nat, Channel>,
    nextMatch: MatchId)

  // ----- Repository operations on the tables

  function UnchangedPropertyId(db: Db, portal: string, externalId: string, contentHash: string): Option<PropertyId> {
    if (portal, externalId) in db.listings && db.listings[(portal, externalId)].contentHash == contentHash
    then Some(db.listings[(portal, externalId)].propertyId) else None
  }

  function ListingUpserted(db: Db, raw: RawListing, propertyId: PropertyId, contentHash: string): Db {
    db.(listings := db.listings[(raw.portal, raw.externalId) :=
      ListingRow(propertyId, raw.url, raw.payload, contentHash, raw.scrapedAt)])
  }

  /** Money compares by amount and currency. */
  predicate SamePrice(a: Rules.Money, b: Rules.Money) {
    Value(a.amount) == Value(b.amount) && a.currency == b.currency
  }

  predicate PriceChanged(existing: Option<PropertyRow>, price: Rules.Money) {
    existing.None? || existing.value.property.price.None? || !SamePrice(existing.value.property.price.value, price)
  }

  function Existing(db: Db, id: PropertyId): Option<PropertyRow> {
    if id in db.properties then Some(db.properties[id]) else None
  }

  function PropertyAdded(db: Db, p: Rules.Property, now: Time): Db {
    var existing := Existing(db, p.id);
    var row := PropertyRow(p, if existing.Some? then existing.value.firstSeenAt else now, now);
    db.(properties := db.properties[p.id := row],
        prices := if p.price.Some? && PriceChanged(existing, p.price.value)
                  then db.prices + [PriceRow(p.id, p.price.value, now)] else db.prices)
  }

  function CacheGet(db: Db, signature: string, now: Time): Option<seq<PropertyId>> {
    if signature !in db.cache || db.cache[signature].expiresAt <= now then None else Some(db.cache[signature].ids)
  }

  function CachePut(db: Db, signature: string, ids: seq<PropertyId>, fetchedAt: Time, ttl: int): Db {
    db.(cache := db.cache[signature := CacheRow(ids, fetchedAt, fetchedAt + ttl)])
  }

  function Recorded(db: Db, execution: Execution): Db {
    db.(executions := db.executions + [execution])
  }

  function MatchAdded(db: Db, key: MatchKey, now: Time): Db {
    if key in db.matches then db
    else db.(matches := db.matches[key := MatchRow(db.nextMatch, now)], nextMatch := db.nextMatch + 1)
  }

  function EnabledFor(db: Db, userId: nat): set<nat> {
    set c | c in db.channels && db.channels[c].userId == userId && db.channels[c].enabled
  }

  function NotificationEnqueued(db: Db, matchId: MatchId, channelId: nat, now: Time): Db {
    if (matchId, channelId) in db.outbox then db else db.(outbox := db.outbox[(matchId, channelId) := now])
  }

  /** The outbox keys of one match. */
  function Entries(matchId: MatchId, channelIds: set<nat>): set<OutboxKey> {
    set c | c in channelIds :: (matchId, c)
  }

  /** Keys that are there already stay as they are. */
  function WithEntries(outbox: map<OutboxKey, Time>, keys: set<OutboxKey>, now: Time): map<OutboxKey, Time> {
    map o | o in outbox.Keys + keys :: if o in outbox then outbox[o] else now
  }

  function AllEnqueued(db: Db, matchId: MatchId, channelIds: set<nat>, now: Time): Db {
    db.(outbox := WithEntries(db.outbox, Entries(matchId, channelIds), now))
  }

  function AlertSaved(db: Db, alert: SearchAlert): Db {
    db.(alerts := db.alerts[alert.id :=
      Merged(if alert.id in db.alerts then Some(db.alerts[alert.id]) else None, alert)])
  }

  /** One open transaction. */
  class UnitOfWork {
    var db: Db

    constructor (committed: Db)
      ensures db == committed
    {
      db := committed;
    }

    method FindUnchangedPropertyId(
      portal: string, externalId: string, contentHash: string)
      returns (id: Option<PropertyId>)
      ensures id == UnchangedPropertyId(db, portal, externalId, contentHash)
    {
      if (portal, externalId) !in db.listings {
        return None;
      }
      var model := db.listings[(portal, externalId)];
      id := if model.contentHash == contentHash then Some(model.propertyId) else None;
    }

    method UpsertListing(raw: RawListing, propertyId: PropertyId, contentHash: string)
      modifies this
      ensures db == ListingUpserted(old(db), raw, propertyId, contentHash)
    {
      var key := (raw.portal, raw.externalId);
      if key in db.listings {
        var row := db.listings[key];
        row := row.(propertyId := propertyId);
        row := row.(url := raw.url);
        row := row.(payload := raw.payload);
        row := row.(contentHash := contentHash);
        row := row.(scrapedAt := raw.scrapedAt);
        db := db.(listings := db.listings[key := row]);
        return;
      }
      var inserted := ListingRow(propertyId, raw.url, raw.payload, contentHash, raw.scrapedAt);
      db := db.(listings := db.listings[key := inserted]);
    }

    /** Fails, like the source, when the price per m² cannot be computed. */
    method AddProperty(lib: Rules.Library, p: Rules.Property, now: Time) returns (added: bool)
      modifies this
      ensures added == Rules.PricePerM2(lib, p).Success?
      ensures db == if added then PropertyAdded(old(db), p, now) else old(db)
    {
      if Rules.PricePerM2(lib, p).Failure? {
        return false;
      }
      var existing := if p.id in db.properties then Some(db.properties[p.id]) else None;
      var row := PropertyRow(p, now, now);
      if existing.Some? {
        row := row.(firstSeenAt := existing.value.firstSeenAt);
      }
      var priceChanged := p.price.Some? && PriceChanged(existing, p.price.value);
      db := db.(properties := db.properties[p.id := row]);
      if priceChanged {
        db := db.(prices := db.prices + [PriceRow(p.id, p.price.value, now)]);
      }
      added := true;
    }

    method PutCache(signature: string, ids: seq<PropertyId>, fetchedAt: Time, ttl: int)
      modifies this
      ensures db == CachePut(old(db), signature, ids, fetchedAt, ttl)
    {
      db := db.(cache := db.cache[signature := CacheRow(ids, fetchedAt, fetchedAt + ttl)]);
    }

    method Record(execution: Execution)
      modifies this
      ensures db == Recorded(old(db), execution)
    {
      db := db.(executions := db.executions + [execution]);
    }

    method AddIfNew(key: MatchKey, now: Time) returns (id: Option<MatchId>)
      modifies this
      ensures db == MatchAdded(old(db), key, now)
      ensures id == if key in old(db).matches then None else Some(old(db).nextMatch)
    {
      if key in db.matches {
        return None;
      }
      id := Some(db.nextMatch);
      db := db.(matches := db.matches[key := MatchRow(db.nextMatch, now)], nextMatch := db.nextMatch + 1);
    }

    method Enqueue(matchId: MatchId, channelId: nat, now: Time)
      modifies this
      ensures db == NotificationEnqueued(old(db), matchId, channelId, now)
    {
      if (matchId, channelId) in db.outbox {
        return;
      }
      db := db.(outbox := db.outbox[(matchId, channelId) := now]);
    }

    method SaveAlert(alert: SearchAlert)
      modifies this
      ensures db == AlertSaved(old(db), alert)
    {
      var stored := if alert.id in db.alerts then Some(db.alerts[alert.id]) else None;
      db := db.(alerts := db.alerts[alert.id := Merged(stored, alert)]);
    }
  }
}
