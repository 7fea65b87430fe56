/** The alert aggregate: what its owner may change, and what no change breaks. */
module AlertEdits {
  import opened Wrappers
  import opened Conditions
  import opened Alerts
  import Texts

  datatype Change =
    | Rename(name: string)
    | ReplaceConditions(conditions: Node)
    | SetPortals(portalSlugs: set<string>)
    | SetFrequency(frequencySeconds: int)
    | Activate
    | Deactivate

  /** The aggregate's own checks; a refused change is an InvalidAlertError. */
  predicate IsAllowed(change: Change) {
    match change
    case Rename(name) => Texts.Strip(name) != []
    case ReplaceConditions(conditions) => 1 <= Leaves(conditions)
    case SetPortals(portalSlugs) => portalSlugs != {}
    case SetFrequency(frequencySeconds) => MIN_FREQUENCY_SECONDS <= frequencySeconds
    case _ => true
  }

  function Changed(alert: SearchAlert, change: Change, now: int): SearchAlert {
    if !IsAllowed(change) then alert
    else
      match change
      case Rename(name) => alert.(name := name, updatedAt := now)
      case ReplaceConditions(conditions) => alert.(conditions := conditions, updatedAt := now)
      case SetPortals(portalSlugs) => alert.(portalSlugs := portalSlugs, updatedAt := now)
      case SetFrequency(frequencySeconds) => alert.(frequencySeconds := frequencySeconds, updatedAt := now)
      case Activate => alert.(isActive := true, updatedAt := now)
      case Deactivate => alert.(isActive := false, updatedAt := now)
  }

  class AlertAggregate {
    const id: nat
    const userId: nat
    const createdAt: int
    var name: string
    var portalSlugs: set<string>
    var frequencySeconds: int
    var conditions: Node
    var updatedAt: int
    var isActive: bool
    var lastRunAt: Option<int>

    ghost function Value(): SearchAlert
      reads this
    {
      SearchAlert(
        id, userId, name, portalSlugs, frequencySeconds, conditions, createdAt, updatedAt, isActive, lastRunAt)
    }

    /** `create`: the fields of an alert that `Validate` accepts. */
    constructor (
      id: nat, userId: nat, name: string, portalSlugs: set<string>, frequencySeconds: int, conditions: Node, now: int)
      ensures Value() == SearchAlert(id, userId, name, portalSlugs, frequencySeconds, conditions, now, now, true, None)
    {
      this.id, this.userId, this.createdAt := id, userId, now;
      this.name, this.portalSlugs := name, portalSlugs;
      this.frequencySeconds, this.conditions := frequencySeconds, conditions;
      updatedAt, isActive, lastRunAt := now, true, None;
    }

    method Validate() returns (ok: bool)
      requires conditions.Group?
      ensures ok == IsValid(Value())
    {
      if Texts.Strip(name) == [] {
        return false;
      }
      if portalSlugs == {} {
        return false;
      }
      if frequencySeconds < MIN_FREQUENCY_SECONDS {
        return false;
      }
      var count := LeafCount(conditions);
      ok := !(count < 1);
    }

    method Rename(name: string, now: int) returns (ok: bool)
      modifies this
      ensures ok == IsAllowed(Change.Rename(name)) && Value() == Changed(old(Value()), Change.Rename(name), now)
    {
      if Texts.Strip(name) == [] {
        return false;
      }
      this.name, updatedAt := name, now;
      ok := true;
    }

    method ReplaceConditions(conditions: Node, now: int) returns (ok: bool)
      requires conditions.Group?
      modifies this
      ensures ok == IsAllowed(Change.ReplaceConditions(conditions))
      ensures Value() == Changed(old(Value()), Change.ReplaceConditions(conditions), now)
    {
      var count := LeafCount(conditions);
      if count < 1 {
        return false;
      }
      this.conditions, updatedAt := conditions, now;
      ok := true;
    }

    method SetPortals(portalSlugs: set<string>, now: int) returns (ok: bool)
      modifies this
      ensures ok == IsAllowed(Change.SetPortals(portalSlugs))
      ensures Value() == Changed(old(Value()), Change.SetPortals(portalSlugs), now)
    {
      if portalSlugs == {} {
        return false;
      }
      this.portalSlugs, updatedAt := portalSlugs, now;
      ok := true;
    }

    method SetFrequency(frequencySeconds: int, now: int) returns (ok: bool)
      modifies this
      ensures ok == IsAllowed(Change.SetFrequency(frequencySeconds))
      ensures Value() == Changed(old(Value()), Change.SetFrequency(frequencySeconds), now)
    {
      if frequencySeconds < MIN_FREQUENCY_SECONDS {
        return false;
      }
      this.frequencySeconds, updatedAt := frequencySeconds, now;
      ok := true;
    }

    method Activate(now: int)
      modifies this
      ensures Value() == Changed(old(Value()), Change.Activate, now)
    {
      isActive, updatedAt := true, now;
    }

    method Deactivate(now: int)
      modifies this
      ensures Value() == Changed(old(Value()), Change.Deactivate, now)
    {
      isActive, updatedAt := false, now;
    }

    method MarkRun(now: int)
      modifies this
      ensures Value() == old(Value()).(lastRunAt := Some(now))
    {
      lastRunAt := Some(now);
    }
  }

  function AllChanged(alert: SearchAlert, changes: seq<(Change, int)>): SearchAlert {
    if changes == [] then alert
    else
      var (change, now) := changes[|changes| - 1];
      Changed(AllChanged(alert, changes[..|changes| - 1]), change, now)
  }

  /**
  No sequence of changes, refused ones included, makes a valid alert invalid, moves it to another
  owner, or touches the time of its last run.
  */
  lemma {:induction false} ChangesKeepTheAlertValid(alert: SearchAlert, changes: seq<(Change, int)>)
    requires IsValid(alert)
    ensures var after := AllChanged(alert, changes);
            && IsValid(after)
            && after.id == alert.id && after.userId == alert.userId && after.createdAt == alert.createdAt
            && after.lastRunAt == alert.lastRunAt
  {
    if changes == [] {
    } else {
      ChangesKeepTheAlertValid(alert, changes[..|changes| - 1]);
    }
  }

  /** Only switching it on or off and setting its frequency decides anew when an alert is due. */
  lemma {:induction false} OtherChangesKeepThePace(alert: SearchAlert, changes: seq<(Change, int)>, now: int)
    requires forall c :: c in changes ==> !c.0.SetFrequency? && !c.0.Activate? && !c.0.Deactivate?
    ensures IsDue(AllChanged(alert, changes), now) <==> IsDue(alert, now)
  {
    if changes == [] {
    } else {
      OtherChangesKeepThePace(alert, changes[..|changes| - 1], now);
      assert changes[|changes| - 1] in changes;
    }
  }

  // ----- What the changes do

  /** Switching on and switching off are one kind of change. */
  predicate SameKind(a: Change, b: Change) {
    match a
    case Rename(_) => b.Rename?
    case ReplaceConditions(_) => b.ReplaceConditions?
    case SetPortals(_) => b.SetPortals?
    case SetFrequency(_) => b.SetFrequency?
    case _ => b.Activate? || b.Deactivate?
  }

  /** The alert is as the change wants it. */
  predicate Shows(alert: SearchAlert, change: Change) {
    match change
    case Rename(name) => alert.name == name
    case ReplaceConditions(conditions) => alert.conditions == conditions
    case SetPortals(portalSlugs) => alert.portalSlugs == portalSlugs
    case SetFrequency(frequencySeconds) => alert.frequencySeconds == frequencySeconds
    case Activate => alert.isActive
    case Deactivate => !alert.isActive
  }

  /** The two alerts agree on what such a change is about. */
  predicate AgreeOn(a: SearchAlert, b: SearchAlert, change: Change) {
    match change
    case Rename(_) => a.name == b.name
    case ReplaceConditions(_) => a.conditions == b.conditions
    case SetPortals(_) => a.portalSlugs == b.portalSlugs
    case SetFrequency(_) => a.frequencySeconds == b.frequencySeconds
    case _ => a.isActive == b.isActive
  }

  /** A change is refused exactly when it would make a valid alert invalid. */
  lemma RefusedIffItWouldBreak(alert: SearchAlert, wanted: SearchAlert, change: Change)
    requires IsValid(alert) && Shows(wanted, change)
    requires forall other: Change :: !SameKind(change, other) ==> AgreeOn(alert, wanted, other)
    ensures IsAllowed(change) <==> IsValid(wanted)
  {
    assert !change.Rename? ==> AgreeOn(alert, wanted, Rename(""));
    assert !change.ReplaceConditions? ==> AgreeOn(alert, wanted, ReplaceConditions(alert.conditions));
    assert !change.SetPortals? ==> AgreeOn(alert, wanted, SetPortals({}));
    assert !change.SetFrequency? ==> AgreeOn(alert, wanted, SetFrequency(0));
  }

  /** A minute is the shortest frequency. */
  lemma AMinuteIsShortest(alert: SearchAlert)
    requires IsValid(alert)
    ensures forall seconds :: IsValid(alert.(frequencySeconds := seconds)) <==> 60 <= seconds
  {
  }

  /**
  After any sequence of changes the alert is, of each kind, as the last change wants it that was not
  refused.
  */
  lemma {:induction false} LastChangeWins(alert: SearchAlert, changes: seq<(Change, int)>, i: nat)
    requires i < |changes| && IsAllowed(changes[i].0)
    requires forall j :: i < j < |changes| && SameKind(changes[i].0, changes[j].0) ==> !IsAllowed(changes[j].0)
    ensures Shows(AllChanged(alert, changes), changes[i].0)
  {
    hide IsAllowed, Changed, Shows, AgreeOn, SameKind;
    var n, kind := |changes| - 1, changes[i].0;
    OneChangeShows(AllChanged(alert, changes[..n]), changes[n].0, changes[n].1, kind);
    if i < n {
      LastChangeWins(alert, changes[..n], i);
    }
    EveryKindIsItsOwn(kind);
  }

  /** What no change is about, but for refused ones, is as before. */
  lemma {:induction false} WhatNothingChangesStays(alert: SearchAlert, changes: seq<(Change, int)>, kind: Change)
    requires forall i :: 0 <= i < |changes| && SameKind(kind, changes[i].0) ==> !IsAllowed(changes[i].0)
    ensures AgreeOn(alert, AllChanged(alert, changes), kind)
  {
    if changes == [] {
    } else {
      hide IsAllowed, Changed, Shows, AgreeOn, SameKind;
      var n := |changes| - 1;
      var before := AllChanged(alert, changes[..n]);
      WhatNothingChangesStays(alert, changes[..n], kind);
      OneChangeShows(before, changes[n].0, changes[n].1, kind);
      AgreeingTwice(alert, before, AllChanged(alert, changes), kind);
    }
  }

  lemma EveryKindIsItsOwn(kind: Change)
    ensures SameKind(kind, kind)
  {
  }

  lemma AgreeingTwice(a: SearchAlert, b: SearchAlert, c: SearchAlert, kind: Change)
    requires AgreeOn(a, b, kind) && AgreeOn(b, c, kind)
    ensures AgreeOn(a, c, kind)
  {
  }

  lemma OneChangeShows(alert: SearchAlert, change: Change, now: int, kind: Change)
    ensures var after := Changed(alert, change, now);
            if IsAllowed(change) && SameKind(kind, change) then Shows(after, change)
            else AgreeOn(alert, after, kind)
                 && forall other :: SameKind(kind, other) && Shows(alert, other) ==> Shows(after, other)
  {
    hide IsAllowed;
  }

  /** And its time of update is that of the last change that was not refused. */
  lemma {:induction false} LastChangeDatesIt(alert: SearchAlert, changes: seq<(Change, int)>, i: nat)
    requires i < |changes| && IsAllowed(changes[i].0)
    requires forall j :: i < j < |changes| ==> !IsAllowed(changes[j].0)
    ensures AllChanged(alert, changes).updatedAt == changes[i].1
  {
    hide IsAllowed;
    var n := |changes| - 1;
    if i < n {
      LastChangeDatesIt(alert, changes[..n], i);
    }
  }
}
