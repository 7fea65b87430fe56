/**
The search planner: which part of an alert's conditions a portal can filter by itself, and how due
alerts are grouped into as few portal queries as possible.
*/
module SearchPlanner {
  import opened Wrappers
  import opened Decimals
  import opened Conditions
  import opened Alerts
  import Collections
  import Rules

  type Params = map<string, string>

  /** Pushable fields by portal. */
  type Capabilities = map<string, set<string>>

  const EQ_PUSHABLE_FIELDS: set<string> := {"province", "property_type", "listing_type"}

  // ----- Pushable parameters

  /** The text that a condition writes for a parameter, if it writes that parameter at all. */
  function Write(lib: Rules.Library, pushable: set<string>, c: Node, param: string): Option<string> {
    if !c.Condition? || c.fieldKey !in pushable then None
    else if c.fieldKey in EQ_PUSHABLE_FIELDS then
      if c.operator == EQ && c.value.Single? && param == c.fieldKey then Some(lib.show(c.value.scalar)) else None
    else if c.fieldKey != "price" then None
    else if c.operator == LTE && c.value.Single? && param == "price_max" then Some(lib.show(c.value.scalar))
    else if c.operator == GTE && c.value.Single? && param == "price_min" then Some(lib.show(c.value.scalar))
    else if c.operator == BETWEEN && c.value.Tuple? && |c.value.items| == 2 then
      if param == "price_min" then Some(lib.show(c.value.items[0]))
      else if param == "price_max" then Some(lib.show(c.value.items[1]))
      else None
    else None
  }

  /** The text of the last condition that writes a parameter. */
  function LastWrite(lib: Rules.Library, pushable: set<string>, nodes: seq<Node>, param: string): Option<string> {
    if nodes == [] then None
    else
      var last := Write(lib, pushable, nodes[|nodes| - 1], param);
      if last.Some? then last else LastWrite(lib, pushable, nodes[..|nodes| - 1], param)
  }

  const PARAMS: set<string> := {"province", "property_type", "listing_type", "price_min", "price_max"}

  /** Each parameter with its last write. */
  function Pushed(lib: Rules.Library, pushable: set<string>, nodes: seq<Node>): Params {
    map param | param in PARAMS && LastWrite(lib, pushable, nodes, param).Some?
      :: LastWrite(lib, pushable, nodes, param).value
  }

  /** `_add_if_pushable`. */
  method AddIfPushable(lib: Rules.Library, pushable: set<string>, params: Params, c: Node) returns (added: Params)
    requires c.Condition? && ShapeFits(c.operator, c.value)
    ensures forall param :: param in added <==>
              param in params || (param in PARAMS && Write(lib, pushable, c, param).Some?)
    ensures forall param :: param in added ==>
              added[param] == if param in PARAMS && Write(lib, pushable, c, param).Some?
                              then Write(lib, pushable, c, param).value
                              else if param in params then params[param] else ""
  {
    added := params;
    if c.fieldKey !in pushable {
      return;
    }
    if c.fieldKey in EQ_PUSHABLE_FIELDS {
      if c.operator == EQ {
        added := added[c.fieldKey := lib.show(c.value.scalar)];
      }
      return;
    }
    if c.fieldKey == "price" {
      if c.operator == LTE {
        added := added["price_max" := lib.show(c.value.scalar)];
      } else if c.operator == GTE {
        added := added["price_min" := lib.show(c.value.scalar)];
      } else if c.operator == BETWEEN {
        var low, high := c.value.items[0], c.value.items[1];
        added := added["price_min" := lib.show(low)];
        added := added["price_max" := lib.show(high)];
      }
    }
  }

  function ParamsOf(lib: Rules.Library, capabilities: Capabilities, alert: SearchAlert, portal: string): Params {
    if portal !in capabilities || !alert.conditions.Group? || alert.conditions.combinator != ALL then map[]
    else Pushed(lib, capabilities[portal], alert.conditions.children)
  }

  lemma PushedStep(lib: Rules.Library, pushable: set<string>, nodes: seq<Node>, k: nat, before: Params, after: Params)
    requires k < |nodes| && before == Pushed(lib, pushable, nodes[..k])
    requires forall param :: param in after <==>
               param in before || (param in PARAMS && Write(lib, pushable, nodes[k], param).Some?)
    requires forall param :: param in after ==>
               after[param] == if param in PARAMS && Write(lib, pushable, nodes[k], param).Some?
                               then Write(lib, pushable, nodes[k], param).value
                               else if param in before then before[param] else ""
    ensures after == Pushed(lib, pushable, nodes[..k + 1])
  {
    hide Write;
    assert nodes[..k + 1][..k] == nodes[..k];
  }

  lemma GroupsPushNothing(lib: Rules.Library, pushable: set<string>, nodes: seq<Node>, k: nat)
    requires k < |nodes| && nodes[k].Group?
    ensures Pushed(lib, pushable, nodes[..k + 1]) == Pushed(lib, pushable, nodes[..k])
  {
    assert nodes[..k + 1][..k] == nodes[..k];
  }

  lemma ChildIsShaped(group: Node, i: nat)
    requires group.Group? && WellFormed(group) && i < |group.children| && group.children[i].Condition?
    ensures ShapeFits(group.children[i].operator, group.children[i].value)
  {
    assert group.children[i] in group.children;
  }

  method PushableParams(lib: Rules.Library, capabilities: Capabilities, alert: SearchAlert, portal: string)
    returns (params: Params)
    requires alert.conditions.Group? && WellFormed(alert.conditions)
    ensures params == ParamsOf(lib, capabilities, alert, portal)
  {
    params := map[];
    if portal !in capabilities || alert.conditions.combinator != ALL {
      return;
    }
    var children := alert.conditions.children;
    assert children[..0] == [];
    for i := 0 to |children|
      invariant params == Pushed(lib, capabilities[portal], children[..i])
    {
      hide Write, LastWrite, WellFormed, Pushed;
      ghost var before := params;
      if children[i].Condition? {
        ChildIsShaped(alert.conditions, i);
        params := AddIfPushable(lib, capabilities[portal], params, children[i]);
        PushedStep(lib, capabilities[portal], children, i, before, params);
      } else {
        GroupsPushNothing(lib, capabilities[portal], children, i);
      }
    }
    assert children[..|children|] == children;
  }

  // ----- Pushing down is sound

  /** What a portal that honours the parameter lets through; amounts are read back from their text. */
  predicate ParamHolds(read: string -> Option<Decimal>, param: string, text: string, p: Rules.Property) {
    if param == "province" then p.province == text
    else if param == "property_type" then p.propertyType == text
    else if param == "listing_type" then p.listingType == text
    else
      && p.price.Some? && read(text).Some?
      && (if param == "price_max" then Value(p.price.value.amount) <= Value(read(text).value)
          else Value(read(text).value) <= Value(p.price.value.amount))
  }

  predicate ParamsHold(read: string -> Option<Decimal>, params: Params, p: Rules.Property) {
    forall param :: param in params ==> ParamHolds(read, param, params[param], p)
  }

  /** `str` writes a text as itself and a Decimal so that `Decimal` reads it back. */
  ghost predicate ShowsFaithfully(lib: Rules.Library, read: string -> Option<Decimal>) {
    && (forall s :: lib.show(Str(s)) == s)
    && (forall d :: read(lib.show(Dec(d))) == Some(d))
  }

  lemma PushableFieldsAreRegistered(lib: Rules.Library, p: Rules.Property)
    ensures var reg := Rules.DefaultRegistry(lib);
            && "province" in reg && reg["province"].extract(p) == Success(Some(Str(p.province)))
            && "property_type" in reg && reg["property_type"].extract(p) == Success(Some(Str(p.propertyType)))
            && "listing_type" in reg && reg["listing_type"].extract(p) == Success(Some(Str(p.listingType)))
            && "price" in reg && reg["price"].fieldType == Rules.MONEY
            && reg["price"].extract(p) == Success(if p.price.Some? then Some(Dec(p.price.value.amount)) else None)
  {
    hide Rules.DefaultRegistry;
    Rules.EnumFieldLookup(lib, "province");
    Rules.EnumFieldLookup(lib, "property_type");
    Rules.EnumFieldLookup(lib, "listing_type");
    Rules.NumberFieldLookup(lib, "price");
  }

  /** A typed condition that holds on a property vouches for every parameter it writes. */
  lemma WritesAreSound(
    lib: Rules.Library, read: string -> Option<Decimal>, pushable: set<string>, c: Node, param: string,
    p: Rules.Property)
    requires ShowsFaithfully(lib, read) && Rules.Typed(Rules.DefaultRegistry(lib), c)
    requires c.Condition? && Rules.Meaning(lib, Rules.DefaultRegistry(lib), c, p)
    requires Write(lib, pushable, c, param).Some?
    ensures ParamHolds(read, param, Write(lib, pushable, c, param).value, p)
  {
    PushableFieldsAreRegistered(lib, p);
    hide Rules.DefaultRegistry;
    if c.fieldKey == "price" {
      PriceWritesAreSound(lib, read, pushable, c, param, p);
    }
  }

  lemma PriceWritesAreSound(
    lib: Rules.Library, read: string -> Option<Decimal>, pushable: set<string>, c: Node, param: string,
    p: Rules.Property)
    requires ShowsFaithfully(lib, read) && c.Condition? && c.fieldKey == "price" && ShapeFits(c.operator, c.value)
    requires Rules.TypedValue(c.value, Rules.MONEY) && Write(lib, pushable, c, param).Some?
    requires var actual := if p.price.Some? then Some(Dec(p.price.value.amount)) else None;
             Rules.Matches(lib, c.operator, actual, c.value) == Success(true)
    ensures ParamHolds(read, param, Write(lib, pushable, c, param).value, p)
  {
    hide Value;
    assert p.price.Some?;
    if c.value.Tuple? {
      assert Rules.HasType(c.value.items[0], Rules.MONEY) && Rules.HasType(c.value.items[1], Rules.MONEY);
    }
  }

  lemma {:induction false} LastWritesAreSound(
    lib: Rules.Library, read: string -> Option<Decimal>, pushable: set<string>, nodes: seq<Node>, param: string,
    p: Rules.Property)
    requires ShowsFaithfully(lib, read)
    requires forall c :: c in nodes ==>
               Rules.Typed(Rules.DefaultRegistry(lib), c) && Rules.Meaning(lib, Rules.DefaultRegistry(lib), c, p)
    requires LastWrite(lib, pushable, nodes, param).Some?
    ensures ParamHolds(read, param, LastWrite(lib, pushable, nodes, param).value, p)
  {
    var last := nodes[|nodes| - 1];
    assert last in nodes;
    if Write(lib, pushable, last, param).Some? {
      WritesAreSound(lib, read, pushable, last, param, p);
    } else {
      LastWritesAreSound(lib, read, pushable, nodes[..|nodes| - 1], param, p);
    }
  }

  /**
  Pushdown is sound: a property on which the alert's whole tree holds also satisfies every parameter
  pushed for it, repeated conditions that overwrite each other included.
  */
  lemma PushdownIsSound(
    lib: Rules.Library, read: string -> Option<Decimal>, capabilities: Capabilities, alert: SearchAlert,
    portal: string, p: Rules.Property)
    requires ShowsFaithfully(lib, read) && Rules.Typed(Rules.DefaultRegistry(lib), alert.conditions)
    requires Rules.Meaning(lib, Rules.DefaultRegistry(lib), alert.conditions, p)
    ensures ParamsHold(read, ParamsOf(lib, capabilities, alert, portal), p)
  {
    hide Rules.DefaultRegistry;
    var params := ParamsOf(lib, capabilities, alert, portal);
    forall param | param in params
      ensures ParamHolds(read, param, params[param], p)
    {
      LastWritesAreSound(lib, read, capabilities[portal], alert.conditions.children, param, p);
    }
  }

  function Kept(read: string -> Option<Decimal>, params: Params, candidates: seq<Rules.Property>): seq<Rules.Property> {
    if candidates == [] then []
    else (if ParamsHold(read, params, candidates[0]) then [candidates[0]] else [])
         + Kept(read, params, candidates[1..])
  }

  /** So letting the portal filter first never changes what an alert matches, nor the order. */
  lemma {:induction false} FilteringFirstChangesNothing(
    lib: Rules.Library, read: string -> Option<Decimal>, capabilities: Capabilities, alert: SearchAlert,
    portal: string, candidates: seq<Rules.Property>)
    requires ShowsFaithfully(lib, read) && Rules.Typed(Rules.DefaultRegistry(lib), alert.conditions)
    ensures var reg := Rules.DefaultRegistry(lib);
            var kept := Kept(read, ParamsOf(lib, capabilities, alert, portal), candidates);
            Rules.Matching(lib, reg, alert.conditions, kept)
            == Rules.Matching(lib, reg, alert.conditions, candidates)
  {
    hide Rules.DefaultRegistry, ParamsOf, Rules.Meaning, Rules.Typed, ParamsHold;
    var reg, params := Rules.DefaultRegistry(lib), ParamsOf(lib, capabilities, alert, portal);
    if candidates == [] {
    } else {
      var first, rest := candidates[0], Kept(read, params, candidates[1..]);
      FilteringFirstChangesNothing(lib, read, capabilities, alert, portal, candidates[1..]);
      if Rules.Meaning(lib, reg, alert.conditions, first) {
        PushdownIsSound(lib, read, capabilities, alert, portal, first);
      }
      if ParamsHold(read, params, first) {
        assert Kept(read, params, candidates) == [first] + rest;
        assert ([first] + rest)[1..] == rest;
      } else {
        assert Kept(read, params, candidates) == rest;
        assert [] + Rules.Matching(lib, reg, alert.conditions, candidates[1..])
            == Rules.Matching(lib, reg, alert.conditions, candidates[1..]);
      }
    }
  }

  // ----- When the order of the conditions matters

  /** Both conditions write the parameter, with different texts. */
  predicate Conflict(lib: Rules.Library, pushable: set<string>, c: Node, d: Node, param: string) {
    && param in PARAMS
    && Write(lib, pushable, c, param).Some?
    && Write(lib, pushable, d, param).Some?
    && Write(lib, pushable, c, param) != Write(lib, pushable, d, param)
  }

  ghost predicate Agree(lib: Rules.Library, pushable: set<string>, nodes: seq<Node>) {
    forall c, d, param :: c in nodes && d in nodes ==> !Conflict(lib, pushable, c, d, param)
  }

  lemma {:induction false} LastWriteIsSomeWrite(
    lib: Rules.Library, pushable: set<string>, nodes: seq<Node>, param: string)
    ensures var last := LastWrite(lib, pushable, nodes, param);
            && (last.Some? ==> exists c :: c in nodes && Write(lib, pushable, c, param) == last)
            && (last.None? ==> forall c :: c in nodes ==> Write(lib, pushable, c, param).None?)
  {
    if nodes == [] {
    } else {
      var n := |nodes| - 1;
      LastWriteIsSomeWrite(lib, pushable, nodes[..n], param);
      assert forall c :: c in nodes <==> c in nodes[..n] || c == nodes[n];
    }
  }

  lemma AgreeingLastWrite(lib: Rules.Library, pushable: set<string>, nodes: seq<Node>, c: Node, param: string)
    requires Agree(lib, pushable, nodes) && c in nodes && param in PARAMS && Write(lib, pushable, c, param).Some?
    ensures LastWrite(lib, pushable, nodes, param) == Write(lib, pushable, c, param)
  {
    LastWriteIsSomeWrite(lib, pushable, nodes, param);
    var d :| d in nodes && Write(lib, pushable, d, param) == LastWrite(lib, pushable, nodes, param);
    assert !Conflict(lib, pushable, c, d, param);
  }

  lemma AgreementSurvivesReordering(lib: Rules.Library, pushable: set<string>, nodes: seq<Node>, other: seq<Node>)
    requires Agree(lib, pushable, nodes) && multiset(other) == multiset(nodes)
    ensures Pushed(lib, pushable, other) == Pushed(lib, pushable, nodes)
  {
    Collections.SameMembers(nodes, other);
    forall param | param in PARAMS
      ensures LastWrite(lib, pushable, other, param) == LastWrite(lib, pushable, nodes, param)
    {
      LastWriteIsSomeWrite(lib, pushable, other, param);
      LastWriteIsSomeWrite(lib, pushable, nodes, param);
      if LastWrite(lib, pushable, other, param).Some? {
        var c :| c in other && Write(lib, pushable, c, param) == LastWrite(lib, pushable, other, param);
        AgreeingLastWrite(lib, pushable, nodes, c, param);
      }
    }
  }

  /** An order of the conditions in which a given one comes last, so that its writes win. */
  lemma MovedToEnd(
    lib: Rules.Library, pushable: set<string>, nodes: seq<Node>, c: Node, param: string)
    returns (moved: seq<Node>)
    requires c in nodes && param in PARAMS && Write(lib, pushable, c, param).Some?
    ensures multiset(moved) == multiset(nodes)
    ensures param in Pushed(lib, pushable, moved)
    ensures Some(Pushed(lib, pushable, moved)[param]) == Write(lib, pushable, c, param)
  {
    var i :| 0 <= i < |nodes| && nodes[i] == c;
    moved := nodes[..i] + nodes[i + 1..] + [nodes[i]];
    assert nodes == nodes[..i] + [nodes[i]] + nodes[i + 1..];
    hide Write;
    assert LastWrite(lib, pushable, moved, param) == Write(lib, pushable, c, param);
  }

  /**
  The pushed parameters, and with them the signature, do not depend on the order of the conditions
  exactly when no two conditions write different texts for the same parameter.
  */
  lemma OrderIsIrrelevantIffWritesAgree(lib: Rules.Library, pushable: set<string>, nodes: seq<Node>)
    ensures Agree(lib, pushable, nodes) <==>
            forall other :: multiset(other) == multiset(nodes) ==>
              Pushed(lib, pushable, other) == Pushed(lib, pushable, nodes)
  {
    if Agree(lib, pushable, nodes) {
      forall other | multiset(other) == multiset(nodes)
        ensures Pushed(lib, pushable, other) == Pushed(lib, pushable, nodes)
      {
        AgreementSurvivesReordering(lib, pushable, nodes, other);
      }
    } else {
      hide Pushed, Write;
      var c, d, param :| c in nodes && d in nodes && Conflict(lib, pushable, c, d, param);
      var a := MovedToEnd(lib, pushable, nodes, c, param);
      var b := MovedToEnd(lib, pushable, nodes, d, param);
      assert Pushed(lib, pushable, a) != Pushed(lib, pushable, b);
    }
  }

  /** Two lists of conditions push the same parameters exactly when they end on the same last writes. */
  lemma SamePushedIffSameLastWrites(lib: Rules.Library, pushable: set<string>, nodes: seq<Node>, other: seq<Node>)
    ensures Pushed(lib, pushable, nodes) == Pushed(lib, pushable, other)
            <==> forall param :: param in PARAMS ==>
                   LastWrite(lib, pushable, nodes, param) == LastWrite(lib, pushable, other, param)
  {
    hide LastWrite;
    var a, b := Pushed(lib, pushable, nodes), Pushed(lib, pushable, other);
    if a == b {
      forall param | param in PARAMS
        ensures LastWrite(lib, pushable, nodes, param) == LastWrite(lib, pushable, other, param)
      {
        assert param in a <==> param in b;
      }
    }
  }

  /** Two upper bounds on the price, and the same in the other order, push different parameters. */
  lemma TwoBoundsPushTheLastOne(lib: Rules.Library, pushable: set<string>, x: Scalar, y: Scalar)
    requires "price" in pushable && lib.show(x) != lib.show(y)
    ensures var c, d := Condition("price", LTE, Single(x)), Condition("price", LTE, Single(y));
            && multiset([c, d]) == multiset([d, c])
            && Pushed(lib, pushable, [c, d]) != Pushed(lib, pushable, [d, c])
  {
    var c, d := Condition("price", LTE, Single(x)), Condition("price", LTE, Single(y));
    BoundWrites(lib, pushable, x);
    BoundWrites(lib, pushable, y);
    hide Write, Pushed;
    SamePushedIffSameLastWrites(lib, pushable, [c, d], [d, c]);
    assert LastWrite(lib, pushable, [c, d], "price_max") == Some(lib.show(y));
    assert LastWrite(lib, pushable, [d, c], "price_max") == Some(lib.show(x));
  }

  lemma BoundWrites(lib: Rules.Library, pushable: set<string>, x: Scalar)
    requires "price" in pushable
    ensures Write(lib, pushable, Condition("price", LTE, Single(x)), "price_max") == Some(lib.show(x))
    ensures "price_max" in PARAMS
  {
    assert "price"[2] == 'i' && "province"[2] == 'o' && "property_type"[2] == 'o' && "listing_type"[2] == 's';
  }
}
