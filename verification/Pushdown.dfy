/**
What the pushed parameters ask of a portal, in terms of the alert's conditions: the last equality on
each of three fields and the last bounds on the price, where the portal can filter by the field.
*/
module Pushdown {
  import opened Wrappers
  import opened Decimals
  import opened Conditions
  import opened Alerts
  import opened SearchPlanner
  import Rules
  import Verdicts

  /** The field that a parameter filters by. */
  function FieldOf(param: string): string {
    if param == "price_min" || param == "price_max" then "price" else param
  }

  /** The condition restricts what the parameter filters by. */
  predicate Restricts(c: Node, param: string) {
    && c.Condition? && c.fieldKey == FieldOf(param)
    && match c.operator
       case EQ => param == "province" || param == "property_type" || param == "listing_type"
       case LTE => param == "price_max"
       case GTE => param == "price_min"
       case BETWEEN => param == "price_min" || param == "price_max"
       case _ => false
  }

  /** The value that it asks for, or the bound that it sets. */
  function Bound(c: Node, param: string): Scalar
    requires Restricts(c, param)
  {
    match c.value
    case Single(s) => s
    case Tuple(items) => if |items| != 2 then Str("") else if param == "price_min" then items[0] else items[1]
    case Absent => Str("")
  }

  /** No later condition restricts the same. */
  ghost predicate IsLast(nodes: seq<Node>, i: int, param: string) {
    && 0 <= i < |nodes| && Restricts(nodes[i], param)
    && forall j :: i < j < |nodes| ==> !Restricts(nodes[j], param)
  }

  /** The property has what the restriction asks for. */
  predicate Meets(p: Rules.Property, param: string, bound: Scalar) {
    if param == "province" then bound == Str(p.province)
    else if param == "property_type" then bound == Str(p.propertyType)
    else if param == "listing_type" then bound == Str(p.listingType)
    else if param == "price_min" then
      p.price.Some? && bound.Dec? && Value(bound.d) <= Value(p.price.value.amount)
    else p.price.Some? && bound.Dec? && Value(p.price.value.amount) <= Value(bound.d)
  }

  // ----- Which parameters are pushed, and with which texts

  lemma NamesDiffer()
    ensures "price" !in EQ_PUSHABLE_FIELDS
    ensures PARAMS == EQ_PUSHABLE_FIELDS + {"price_min", "price_max"}
    ensures "price_min" !in EQ_PUSHABLE_FIELDS && "price_max" !in EQ_PUSHABLE_FIELDS && "price_min" != "price_max"
    ensures forall param :: param in EQ_PUSHABLE_FIELDS <==>
              param == "province" || param == "property_type" || param == "listing_type"
  {
    assert "price"[2] == 'i' && "province"[2] == 'o' && "property_type"[2] == 'o' && "listing_type"[2] == 's';
    assert "price_min"[2] == 'i' && "price_max"[2] == 'i' && "price_min"[7] == 'i' && "price_max"[7] == 'a';
  }

  /** One condition writes a parameter exactly when it restricts it and the portal can filter by the field. */
  lemma WritesRestrict(lib: Rules.Library, pushable: set<string>, c: Node, param: string)
    requires param in PARAMS && (c.Condition? ==> ShapeFits(c.operator, c.value))
    ensures Write(lib, pushable, c, param).Some? <==> FieldOf(param) in pushable && Restricts(c, param)
    ensures FieldOf(param) in pushable && Restricts(c, param) ==>
              Write(lib, pushable, c, param) == Some(lib.show(Bound(c, param)))
  {
    NamesDiffer();
    hide EQ_PUSHABLE_FIELDS, PARAMS;
  }

  lemma {:induction false} LastWriteIsLast(lib: Rules.Library, pushable: set<string>, nodes: seq<Node>, param: string)
    requires param in PARAMS && forall c :: c in nodes && c.Condition? ==> ShapeFits(c.operator, c.value)
    ensures LastWrite(lib, pushable, nodes, param).Some?
            <==> FieldOf(param) in pushable && exists c :: c in nodes && Restricts(c, param)
    ensures forall i :: FieldOf(param) in pushable && IsLast(nodes, i, param) ==>
              LastWrite(lib, pushable, nodes, param) == Some(lib.show(Bound(nodes[i], param)))
  {
    hide Write, Restricts, FieldOf, PARAMS, ShapeFits, Bound;
    if nodes == [] {
    } else {
      var n := |nodes| - 1;
      assert nodes[n] in nodes;
      assert forall c :: c in nodes <==> c in nodes[..n] || c == nodes[n];
      WritesRestrict(lib, pushable, nodes[n], param);
      LastWriteIsLast(lib, pushable, nodes[..n], param);
      forall i | FieldOf(param) in pushable && IsLast(nodes, i, param)
        ensures LastWrite(lib, pushable, nodes, param) == Some(lib.show(Bound(nodes[i], param)))
      {
        if i < n {
          assert !Restricts(nodes[n], param);
          assert IsLast(nodes[..n], i, param);
        }
      }
    }
  }

  lemma {:induction false} SomeIsLast(nodes: seq<Node>, param: string) returns (i: int)
    requires exists c :: c in nodes && Restricts(c, param)
    ensures IsLast(nodes, i, param)
  {
    hide Restricts;
    var n := |nodes| - 1;
    if Restricts(nodes[n], param) {
      i := n;
    } else {
      assert forall c :: c in nodes <==> c in nodes[..n] || c == nodes[n];
      i := SomeIsLast(nodes[..n], param);
    }
  }

  lemma ChildrenAreShaped(group: Node)
    requires group.Group? && WellFormed(group)
    ensures forall c :: c in group.children && c.Condition? ==> ShapeFits(c.operator, c.value)
  {
  }

  /**
  Exactly these parameters are pushed, with exactly these texts: of an ALL group, to a portal that can
  filter by the field, what the last condition on it asks for.
  */
  lemma PushedExactly(
    lib: Rules.Library, capabilities: Capabilities, alert: SearchAlert, portal: string, param: string)
    requires alert.conditions.Group? && WellFormed(alert.conditions)
    ensures var params, children := ParamsOf(lib, capabilities, alert, portal), alert.conditions.children;
            && (param in params <==>
                  && alert.conditions.combinator == ALL && param in PARAMS
                  && portal in capabilities && FieldOf(param) in capabilities[portal]
                  && exists c :: c in children && Restricts(c, param))
            && (forall i :: param in params && IsLast(children, i, param) ==>
                  params[param] == lib.show(Bound(children[i], param)))
  {
    hide LastWrite, Restricts, FieldOf, PARAMS, ShapeFits, WellFormed, Bound;
    ChildrenAreShaped(alert.conditions);
    if portal in capabilities && param in PARAMS {
      LastWriteIsLast(lib, capabilities[portal], alert.conditions.children, param);
    }
  }

  // ----- What a portal that honours them lets through

  /** A parameter with the text of a typed condition asks for what the condition asks for. */
  lemma TextsAskTheSame(
    lib: Rules.Library, read: string -> Option<Decimal>, c: Node, param: string, p: Rules.Property)
    requires ShowsFaithfully(lib, read) && param in PARAMS && Restricts(c, param)
    requires Rules.Typed(Rules.DefaultRegistry(lib), c)
    ensures ParamHolds(read, param, lib.show(Bound(c, param)), p) <==> Meets(p, param, Bound(c, param))
  {
    NamesDiffer();
    hide EQ_PUSHABLE_FIELDS, PARAMS, Value;
    BoundsAreTyped(lib, c, param, p);
    hide Rules.DefaultRegistry, Rules.Typed;
  }

  lemma BoundsAreTyped(lib: Rules.Library, c: Node, param: string, p: Rules.Property)
    requires Restricts(c, param) && Rules.Typed(Rules.DefaultRegistry(lib), c)
    ensures if FieldOf(param) == "price" then Bound(c, param).Dec? else Bound(c, param).Str?
  {
    Verdicts.EnumFieldsRead(lib, p);
    Verdicts.AmountFieldsRead(lib, p);
    hide Rules.DefaultRegistry;
  }

  /**
  What a portal lets through that honours the parameters of an alert: exactly the properties that meet
  the last restriction of the alert on everything that the portal can filter by.
  */
  lemma PortalsFilterByTheLast(
    lib: Rules.Library, read: string -> Option<Decimal>, capabilities: Capabilities, alert: SearchAlert,
    portal: string, p: Rules.Property)
    requires ShowsFaithfully(lib, read) && portal in capabilities
    requires alert.conditions.Group? && alert.conditions.combinator == ALL && WellFormed(alert.conditions)
    requires Rules.Typed(Rules.DefaultRegistry(lib), alert.conditions)
    ensures ParamsHold(read, ParamsOf(lib, capabilities, alert, portal), p)
            <==> forall param, i ::
                   && param in PARAMS && FieldOf(param) in capabilities[portal]
                   && IsLast(alert.conditions.children, i, param)
                   ==> Meets(p, param, Bound(alert.conditions.children[i], param))
  {
    hide ParamsOf, ParamHolds, Restricts, FieldOf, PARAMS, ShapeFits, WellFormed, Meets, Bound, Rules.DefaultRegistry;
    hide ShowsFaithfully;
    var params, children := ParamsOf(lib, capabilities, alert, portal), alert.conditions.children;
    ChildrenAreShaped(alert.conditions);
    forall param, i | param in PARAMS && FieldOf(param) in capabilities[portal] && IsLast(children, i, param)
      ensures param in params
      ensures ParamHolds(read, param, params[param], p) <==> Meets(p, param, Bound(children[i], param))
    {
      assert children[i] in children;
      PushedExactly(lib, capabilities, alert, portal, param);
      TextsAskTheSame(lib, read, children[i], param, p);
    }
    forall param | param in params
      ensures param in PARAMS && FieldOf(param) in capabilities[portal] && exists i :: IsLast(children, i, param)
    {
      PushedExactly(lib, capabilities, alert, portal, param);
      var i := SomeIsLast(children, param);
    }
  }

  /** A typed restriction holds on a property exactly when the property meets it. */
  lemma RestrictionsMean(lib: Rules.Library, c: Node, p: Rules.Property)
    requires exists param :: param in PARAMS && Restricts(c, param)
    requires Rules.Typed(Rules.DefaultRegistry(lib), c)
    ensures Rules.Meaning(lib, Rules.DefaultRegistry(lib), c, p)
            <==> forall param :: param in PARAMS && Restricts(c, param) ==> Meets(p, param, Bound(c, param))
  {
    NamesDiffer();
    Verdicts.EnumFieldsRead(lib, p);
    Verdicts.AmountFieldsRead(lib, p);
    hide Rules.DefaultRegistry, EQ_PUSHABLE_FIELDS, PARAMS, Value, Rules.Matches;
    var some :| some in PARAMS && Restricts(c, some);
    if c.operator == EQ {
      EqualityMeans(lib, c, some, p);
    } else {
      PriceBoundMeans(lib, c, p);
    }
  }

  lemma EqualityMeans(lib: Rules.Library, c: Node, param: string, p: Rules.Property)
    requires param in PARAMS && Restricts(c, param) && c.operator == EQ && Rules.Typed(Rules.DefaultRegistry(lib), c)
    ensures Rules.Meaning(lib, Rules.DefaultRegistry(lib), c, p) <==> Meets(p, param, Bound(c, param))
  {
    NamesDiffer();
    Verdicts.EnumFieldsRead(lib, p);
    hide Rules.DefaultRegistry, EQ_PUSHABLE_FIELDS, PARAMS, Value, Rules.Matches;
    Verdicts.TextsCompare(lib, p.province, c.value.scalar.s);
    Verdicts.TextsCompare(lib, p.propertyType, c.value.scalar.s);
    Verdicts.TextsCompare(lib, p.listingType, c.value.scalar.s);
  }

  lemma PriceBoundMeans(lib: Rules.Library, c: Node, p: Rules.Property)
    requires c.Condition? && c.fieldKey == "price" && c.operator in {LTE, GTE, BETWEEN}
    requires Rules.Typed(Rules.DefaultRegistry(lib), c)
    ensures Rules.Meaning(lib, Rules.DefaultRegistry(lib), c, p)
            <==> && (Restricts(c, "price_min") ==> Meets(p, "price_min", Bound(c, "price_min")))
                 && (Restricts(c, "price_max") ==> Meets(p, "price_max", Bound(c, "price_max")))
  {
    NamesDiffer();
    Verdicts.AmountFieldsRead(lib, p);
    hide Rules.DefaultRegistry, EQ_PUSHABLE_FIELDS, PARAMS, Value, Rules.Matches;
    if p.price.None? {
      Verdicts.PresenceMeans(lib, None, c.operator, c.value);
    } else if c.value.Single? {
      var a, b := p.price.value.amount, c.value.scalar.d;
      Verdicts.NumbersCompare(lib, Dec(a), Dec(b), Value(a), Value(b));
    } else {
      var a, items := p.price.value.amount, c.value.items;
      assert Rules.HasType(items[0], Rules.MONEY) && Rules.HasType(items[1], Rules.MONEY);
      assert items == [items[0], items[1]];
      Verdicts.NumbersBetween(lib, Dec(a), items[0], items[1], Value(a), Value(items[0].d), Value(items[1].d));
    }
  }

  /** Every condition restricts something that the portal can filter by, and no two restrict the same. */
  ghost predicate IsPushedWhole(pushable: set<string>, nodes: seq<Node>) {
    forall i :: 0 <= i < |nodes| ==>
      && (exists param :: param in PARAMS && Restricts(nodes[i], param))
      && (forall param :: param in PARAMS && Restricts(nodes[i], param) ==>
            FieldOf(param) in pushable && IsLast(nodes, i, param))
  }

  /** Then the portal lets through exactly the matches of the alert. */
  lemma PushedWholeFindsTheMatches(
    lib: Rules.Library, read: string -> Option<Decimal>, capabilities: Capabilities, alert: SearchAlert,
    portal: string, p: Rules.Property)
    requires ShowsFaithfully(lib, read) && portal in capabilities
    requires alert.conditions.Group? && alert.conditions.combinator == ALL && WellFormed(alert.conditions)
    requires Rules.Typed(Rules.DefaultRegistry(lib), alert.conditions)
    requires IsPushedWhole(capabilities[portal], alert.conditions.children)
    ensures ParamsHold(read, ParamsOf(lib, capabilities, alert, portal), p)
            <==> Rules.Meaning(lib, Rules.DefaultRegistry(lib), alert.conditions, p)
  {
    hide ParamsOf, ParamsHold, Restricts, FieldOf, PARAMS, WellFormed, Meets, Bound, Rules.DefaultRegistry,
      ShowsFaithfully, Rules.LeafHolds;
    var children := alert.conditions.children;
    PortalsFilterByTheLast(lib, read, capabilities, alert, portal, p);
    forall i | 0 <= i < |children|
      ensures Rules.Meaning(lib, Rules.DefaultRegistry(lib), children[i], p)
              <==> forall param :: param in PARAMS && Restricts(children[i], param)
                                   ==> Meets(p, param, Bound(children[i], param))
    {
      assert children[i] in children;
      RestrictionsMean(lib, children[i], p);
    }
    assert Rules.Meaning(lib, Rules.DefaultRegistry(lib), alert.conditions, p)
        <==> forall i :: 0 <= i < |children| ==> Rules.Meaning(lib, Rules.DefaultRegistry(lib), children[i], p);
  }
}
