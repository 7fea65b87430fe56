/**
What a condition says about a property, in terms of the property's own numbers, texts and flags: the
fields of the shipped registry, the comparisons of the operators, and whole trees.
*/
module Verdicts {
  import opened Wrappers
  import opened Decimals
  import opened Conditions
  import opened Rules
  import Texts

  // ----- What the fields of the shipped registry read

  /** The registry reads this value from the property under the key, with this type. */
  ghost predicate Reads(lib: Library, key: string, fieldType: FieldType, p: Property, value: Option<Scalar>) {
    && key in DefaultRegistry(lib)
    && DefaultRegistry(lib)[key].fieldType == fieldType
    && DefaultRegistry(lib)[key].allowed == OpsByType(fieldType)
    && DefaultRegistry(lib)[key].extract(p) == Success(value)
  }

  lemma EnumFieldsRead(lib: Library, p: Property)
    ensures Reads(lib, "province", ENUM, p, Some(Str(p.province)))
    ensures Reads(lib, "municipality", ENUM, p, if p.municipality.Some? then Some(Str(p.municipality.value)) else None)
    ensures Reads(lib, "property_type", ENUM, p, Some(Str(p.propertyType)))
    ensures Reads(lib, "land_type", ENUM, p, if p.landType.Some? then Some(Str(p.landType.value)) else None)
    ensures Reads(lib, "listing_type", ENUM, p, Some(Str(p.listingType)))
    ensures Reads(lib, "status", ENUM, p, Some(Str(p.status)))
  {
    hide DefaultRegistry, OpsByType;
    EnumFieldLookup(lib, "province");
    EnumFieldLookup(lib, "municipality");
    EnumFieldLookup(lib, "property_type");
    EnumFieldLookup(lib, "land_type");
    EnumFieldLookup(lib, "listing_type");
    EnumFieldLookup(lib, "status");
  }

  lemma AmountFieldsRead(lib: Library, p: Property)
    ensures Reads(lib, "price", MONEY, p, if p.price.Some? then Some(Dec(p.price.value.amount)) else None)
    ensures Reads(lib, "area", AREA, p, if p.area.Some? then Some(Dec(p.area.value)) else None)
    ensures Reads(lib, "plot_area", AREA, p, if p.plotArea.Some? then Some(Dec(p.plotArea.value)) else None)
    ensures Reads(lib, "rooms", NUMERIC, p, if p.rooms.Some? then Some(Int(p.rooms.value)) else None)
    ensures Reads(lib, "bathrooms", NUMERIC, p, if p.bathrooms.Some? then Some(Int(p.bathrooms.value)) else None)
  {
    hide DefaultRegistry, OpsByType, PricePerM2;
    NumberFieldLookup(lib, "price");
    NumberFieldLookup(lib, "area");
    NumberFieldLookup(lib, "plot_area");
    NumberFieldLookup(lib, "rooms");
    NumberFieldLookup(lib, "bathrooms");
  }

  /** The price per m² is the quotient of price and area; a quotient that is not positive cannot be read. */
  lemma PricePerM2Reads(lib: Library, p: Property)
    ensures (p.price.None? || p.area.None?) ==> Reads(lib, "price_per_m2", MONEY, p, None)
    ensures p.price.Some? && p.area.Some? ==>
              var q := lib.quotient(p.price.value.amount, p.area.value);
              && (0.0 < Value(q) ==> Reads(lib, "price_per_m2", MONEY, p, Some(Dec(q))))
              && (Value(q) <= 0.0 ==> "price_per_m2" in DefaultRegistry(lib)
                                      && DefaultRegistry(lib)["price_per_m2"].extract(p) == Failure(ValueError))
  {
    hide DefaultRegistry, OpsByType, Value;
    NumberFieldLookup(lib, "price_per_m2");
  }

  lemma TextFieldsRead(lib: Library, p: Property)
    ensures Reads(lib, "postal_code", TEXT, p, if p.postalCode.Some? then Some(Str(p.postalCode.value)) else None)
    ensures Reads(lib, "district", TEXT, p, if p.district.Some? then Some(Str(p.district.value)) else None)
    ensures Reads(lib, "title", TEXT, p, Some(Str(p.title)))
    ensures Reads(lib, "description", TEXT, p, Some(Str(p.description)))
  {
    hide DefaultRegistry, OpsByType;
    TextFieldLookup(lib, "postal_code");
    TextFieldLookup(lib, "district");
    TextFieldLookup(lib, "title");
    TextFieldLookup(lib, "description");
  }

  const FLAGS: set<string> := {"has_lift", "has_terrace", "has_garden", "has_parking", "has_pool", "is_new_build"}

  lemma FlagFieldsRead(lib: Library, p: Property, flag: string)
    requires flag in FLAGS
    ensures Reads(lib, "features." + flag, BOOL, p, if flag in p.features then Some(Bool(p.features[flag])) else None)
  {
    FlagIsListed(flag);
    hide DefaultRegistry, OpsByType, FEATURE_FLAGS, FlagFields;
    var i :| 0 <= i < |FEATURE_FLAGS| && FEATURE_FLAGS[i] == flag;
    FlagField(|FEATURE_FLAGS|, i, p);
    FlagFieldLookup(lib, "features." + flag);
  }

  lemma FlagIsListed(flag: string)
    ensures flag in FLAGS <==> exists i :: 0 <= i < |FEATURE_FLAGS| && FEATURE_FLAGS[i] == flag
  {
    var all := FEATURE_FLAGS;
    assert all[0] == "has_lift" && all[1] == "has_terrace" && all[2] == "has_garden" && all[3] == "has_parking"
        && all[4] == "has_pool" && all[5] == "is_new_build";
  }

  lemma {:induction false} FlagField(n: nat, i: nat, p: Property)
    requires i < n <= |FEATURE_FLAGS|
    ensures var key, flag := "features." + FEATURE_FLAGS[i], FEATURE_FLAGS[i];
            && key in FlagFields(n)
            && FlagFields(n)[key].fieldType == BOOL && FlagFields(n)[key].allowed == OpsByType(BOOL)
            && FlagFields(n)[key].extract(p)
               == Success(if flag in p.features then Some(Bool(p.features[flag])) else None)
  {
    hide OpsByType, FEATURE_FLAGS;
    var key, last := "features." + FEATURE_FLAGS[i], "features." + FEATURE_FLAGS[n - 1];
    if i < n - 1 {
      FlagField(n - 1, i, p);
      if key == last {
        assert FEATURE_FLAGS[i] == key[9..] == last[9..] == FEATURE_FLAGS[n - 1];
      }
    }
  }

  /** There are no other fields. */
  lemma ShippedFields(lib: Library)
    ensures DefaultRegistry(lib).Keys
            == {"province", "municipality", "property_type", "land_type", "listing_type", "status"}
             + {"price", "price_per_m2", "area", "plot_area", "rooms", "bathrooms"}
             + {"postal_code", "district", "title", "description"}
             + set flag | flag in FLAGS :: "features." + flag
  {
    hide EnumFields, NumberFields, TextFields, FlagFields, FLAGS, FEATURE_FLAGS;
    FieldNames(lib);
    FlagNames(|FEATURE_FLAGS|);
    forall flag
      ensures flag in FLAGS <==> exists i :: 0 <= i < |FEATURE_FLAGS| && FEATURE_FLAGS[i] == flag
    {
      FlagIsListed(flag);
    }
    hide DefaultRegistry;
    RegistryKeys(lib);
    FlagKeys();
  }

  lemma RegistryKeys(lib: Library)
    ensures DefaultRegistry(lib).Keys
            == EnumFields().Keys + NumberFields(lib).Keys + TextFields().Keys + FlagFields(|FEATURE_FLAGS|).Keys
  {
    hide EnumFields, NumberFields, TextFields, FlagFields, FEATURE_FLAGS;
  }

  lemma FlagKeys()
    ensures (set i | 0 <= i < |FEATURE_FLAGS| :: "features." + FEATURE_FLAGS[i])
            == set flag | flag in FLAGS :: "features." + flag
  {
    hide FLAGS, FEATURE_FLAGS;
    forall flag
      ensures flag in FLAGS <==> exists i :: 0 <= i < |FEATURE_FLAGS| && FEATURE_FLAGS[i] == flag
    {
      FlagIsListed(flag);
    }
    var a, b := set i | 0 <= i < |FEATURE_FLAGS| :: "features." + FEATURE_FLAGS[i],
                set flag | flag in FLAGS :: "features." + flag;
    forall key | key in a
      ensures key in b
    {
      var i :| 0 <= i < |FEATURE_FLAGS| && key == "features." + FEATURE_FLAGS[i];
      assert FEATURE_FLAGS[i] in FLAGS;
    }
  }

  /** Which operators a field takes: order for numbers, parts for texts, membership for texts and enumerations. */
  lemma OperatorsFitTheType(fieldType: FieldType)
    requires fieldType != GEO
    ensures forall op :: op in {EQ, NEQ, EXISTS, NOT_EXISTS} ==> op in OpsByType(fieldType)
    ensures forall op :: op in {LT, LTE, GT, GTE, BETWEEN} ==>
              (op in OpsByType(fieldType) <==> fieldType in {NUMERIC, MONEY, AREA})
    ensures forall op :: op in {CONTAINS, NOT_CONTAINS} ==> (op in OpsByType(fieldType) <==> fieldType == TEXT)
    ensures forall op :: op in {IN, NOT_IN} ==> (op in OpsByType(fieldType) <==> fieldType in {ENUM, TEXT})
  {
  }

  // ----- What the operators compare

  /** The number that a scalar is: Python's True and False are one and zero. */
  ghost predicate Denotes(s: Scalar, x: real) {
    || (s.Int? && x == s.i as real)
    || (s.Dec? && x == Value(s.d))
    || (s.Bool? && x == if s.b then 1.0 else 0.0)
  }

  /** On known numbers, of whatever types, the operators compare numbers. */
  lemma NumbersCompare(lib: Library, a: Scalar, b: Scalar, x: real, y: real)
    requires Denotes(a, x) && Denotes(b, y)
    ensures Matches(lib, EQ, Some(a), Single(b)) == Success(x == y)
    ensures Matches(lib, NEQ, Some(a), Single(b)) == Success(x != y)
    ensures Matches(lib, LT, Some(a), Single(b)) == Success(x < y)
    ensures Matches(lib, LTE, Some(a), Single(b)) == Success(x <= y)
    ensures Matches(lib, GT, Some(a), Single(b)) == Success(x > y)
    ensures Matches(lib, GTE, Some(a), Single(b)) == Success(x >= y)
  {
    hide Value;
  }

  lemma NumbersBetween(lib: Library, a: Scalar, low: Scalar, high: Scalar, x: real, l: real, h: real)
    requires Denotes(a, x) && Denotes(low, l) && Denotes(high, h)
    ensures Matches(lib, BETWEEN, Some(a), Tuple([low, high])) == Success(l <= x <= h)
  {
    hide Value;
  }

  /** On texts they compare contents, by code points where order is asked for. */
  lemma TextsCompare(lib: Library, s: string, t: string)
    ensures Matches(lib, EQ, Some(Str(s)), Single(Str(t))) == Success(s == t)
    ensures Matches(lib, NEQ, Some(Str(s)), Single(Str(t))) == Success(s != t)
    ensures Matches(lib, LT, Some(Str(s)), Single(Str(t))) == Success(Texts.Less(s, t))
    ensures Matches(lib, LTE, Some(Str(s)), Single(Str(t))) == Success(!Texts.Less(t, s))
    ensures Matches(lib, GT, Some(Str(s)), Single(Str(t))) == Success(Texts.Less(t, s))
    ensures Matches(lib, GTE, Some(Str(s)), Single(Str(t))) == Success(!Texts.Less(s, t))
  {
    hide Texts.Less;
    Texts.LessIsTotal(s, t);
    if Texts.Less(s, t) {
      Texts.LessIsAsymmetric(s, t);
    }
    if Texts.Less(t, s) {
      Texts.LessIsAsymmetric(t, s);
    }
  }

  /** A text and a number are never equal and never in order. */
  lemma KindsDoNotMix(lib: Library, s: string, b: Scalar)
    requires !b.Str?
    ensures Matches(lib, EQ, Some(Str(s)), Single(b)) == Matches(lib, EQ, Some(b), Single(Str(s))) == Success(false)
    ensures Matches(lib, NEQ, Some(Str(s)), Single(b)) == Matches(lib, NEQ, Some(b), Single(Str(s))) == Success(true)
    ensures forall op :: op in {LT, LTE, GT, GTE} ==>
              && Matches(lib, op, Some(Str(s)), Single(b)) == Failure(TypeError)
              && Matches(lib, op, Some(b), Single(Str(s))) == Failure(TypeError)
  {
    hide Value;
  }

  /** One part of a text, both folded. */
  ghost predicate StandsIn(lib: Library, part: Scalar, whole: Scalar) {
    var p, w := lib.fold(lib.show(part)), lib.fold(lib.show(whole));
    exists i, j :: 0 <= i <= j <= |w| && w[i..j] == p
  }

  lemma PartsAreFound(lib: Library, a: Scalar, part: Scalar)
    ensures Matches(lib, CONTAINS, Some(a), Single(part)) == Success(StandsIn(lib, part, a))
    ensures Matches(lib, NOT_CONTAINS, Some(a), Single(part)) == Success(!StandsIn(lib, part, a))
  {
    hide Occurs;
    var p, w := lib.fold(lib.show(part)), lib.fold(lib.show(a));
    OccursIffSomewhere(p, w);
    if i :| 0 <= i <= |w| && p <= w[i..] {
      assert w[i..i + |p|] == w[i..][..|p|] == p;
    }
    if i, j :| 0 <= i <= j <= |w| && w[i..j] == p {
      assert w[i..][..j - i] == p;
    }
  }

  /** IN asks for some item that the value equals, NOT_IN for none. */
  lemma MembershipMeans(lib: Library, a: Scalar, items: seq<Scalar>)
    ensures Matches(lib, IN, Some(a), Tuple(items))
            == Success(exists b :: b in items && Matches(lib, EQ, Some(a), Single(b)) == Success(true))
    ensures Matches(lib, NOT_IN, Some(a), Tuple(items))
            == Success(forall b :: b in items ==> Matches(lib, EQ, Some(a), Single(b)) == Success(false))
  {
    hide Same;
    forall b
      ensures Matches(lib, EQ, Some(a), Single(b)) == Success(Same(a, b))
    {
    }
    assert Among(a, items) <==> exists b :: b in items && Same(a, b);
  }

  lemma PresenceMeans(lib: Library, actual: Option<Scalar>, operator: Operator, value: ConditionValue)
    ensures Matches(lib, EXISTS, actual, value) == Success(actual.Some?)
    ensures Matches(lib, NOT_EXISTS, actual, value) == Success(actual.None?)
    ensures operator !in NULLARY && ShapeFits(operator, value) ==> Matches(lib, operator, None, value) == Success(false)
  {
  }

  // ----- What an alert asks for

  /** A number, a text, or a yes or no. */
  datatype Fact = Quantity(x: real) | Content(s: string) | Truth(b: bool)

  function FactOf(s: Scalar): Fact {
    match s
    case Str(t) => Content(t)
    case Int(i) => Quantity(i as real)
    case Dec(d) => Quantity(Value(d))
    case Bool(b) => Truth(b)
  }

  function QuantityOf(d: Option<Decimal>): Option<Fact> {
    if d.Some? then Some(Quantity(Value(d.value))) else None
  }

  function CountOf(i: Option<int>): Option<Fact> {
    if i.Some? then Some(Quantity(i.value as real)) else None
  }

  function ContentOf(s: Option<string>): Option<Fact> {
    if s.Some? then Some(Content(s.value)) else None
  }

  function EnumFact(p: Property, key: string): Option<Fact> {
    if key == "province" then Some(Content(p.province))
    else if key == "municipality" then ContentOf(p.municipality)
    else if key == "property_type" then Some(Content(p.propertyType))
    else if key == "land_type" then ContentOf(p.landType)
    else if key == "listing_type" then Some(Content(p.listingType))
    else Some(Content(p.status))
  }

  function NumberFact(lib: Library, p: Property, key: string): Option<Fact> {
    if key == "price" then if p.price.Some? then Some(Quantity(Value(p.price.value.amount))) else None
    else if key == "price_per_m2" then
      if p.price.None? || p.area.None? then None
      else Some(Quantity(Value(lib.quotient(p.price.value.amount, p.area.value))))
    else if key == "area" then QuantityOf(p.area)
    else if key == "plot_area" then QuantityOf(p.plotArea)
    else if key == "rooms" then CountOf(p.rooms)
    else CountOf(p.bathrooms)
  }

  function TextFact(p: Property, key: string): Option<Fact> {
    if key == "postal_code" then ContentOf(p.postalCode)
    else if key == "district" then ContentOf(p.district)
    else if key == "title" then Some(Content(p.title))
    else Some(Content(p.description))
  }

  /** What the property says under a key of the shipped registry. */
  function Said(lib: Library, p: Property, key: string): Option<Fact> {
    if key in ENUM_NAMES then EnumFact(p, key)
    else if key in NUMBER_NAMES then NumberFact(lib, p, key)
    else if key in TEXT_NAMES then TextFact(p, key)
    else if |key| >= 9 && key[9..] in p.features then Some(Truth(p.features[key[9..]]))
    else None
  }

  predicate Below(a: Fact, b: Fact) {
    a.Quantity? && b.Quantity? && a.x < b.x
  }

  predicate NotAbove(a: Fact, b: Fact) {
    a.Quantity? && b.Quantity? && a.x <= b.x
  }

  /** What a condition asks of what is said: an unknown only passes NOT_EXISTS. */
  ghost predicate Asks(lib: Library, operator: Operator, value: ConditionValue, said: Option<Fact>)
    requires ShapeFits(operator, value)
  {
    match operator
    case EXISTS => said.Some?
    case NOT_EXISTS => said.None?
    case EQ => said == Some(FactOf(value.scalar))
    case NEQ => said.Some? && said != Some(FactOf(value.scalar))
    case LT => said.Some? && Below(said.value, FactOf(value.scalar))
    case LTE => said.Some? && NotAbove(said.value, FactOf(value.scalar))
    case GT => said.Some? && Below(FactOf(value.scalar), said.value)
    case GTE => said.Some? && NotAbove(FactOf(value.scalar), said.value)
    case BETWEEN =>
      said.Some? && NotAbove(FactOf(value.items[0]), said.value) && NotAbove(said.value, FactOf(value.items[1]))
    case IN => said.Some? && exists b :: b in value.items && said == Some(FactOf(b))
    case NOT_IN => said.Some? && forall b :: b in value.items ==> said != Some(FactOf(b))
    case CONTAINS => said.Some? && said.value.Content? && StandsIn(lib, value.scalar, Str(said.value.s))
    case NOT_CONTAINS => said.Some? && said.value.Content? && !StandsIn(lib, value.scalar, Str(said.value.s))
  }

  /** A whole tree: every child of ALL, some child of ANY, no child of NONE. */
  ghost predicate Wants(lib: Library, node: Node, p: Property)
    requires WellFormed(node)
  {
    match node
    case Condition(fieldKey, operator, value) => Asks(lib, operator, value, Said(lib, p, fieldKey))
    case Group(combinator, children) =>
      match combinator
      case ALL => forall c :: c in children ==> Wants(lib, c, p)
      case ANY => exists c :: c in children && Wants(lib, c, p)
      case NONE => forall c :: c in children ==> !Wants(lib, c, p)
  }

  /** The fact behind a value that a field reads. */
  function Shown(value: Option<Scalar>): Option<Fact> {
    if value.Some? then Some(FactOf(value.value)) else None
  }

  /** A field reads what is said under its key. */
  ghost predicate Tells(lib: Library, p: Property, key: string) {
    && key in DefaultRegistry(lib)
    && DefaultRegistry(lib)[key].extract(p).Success?
    && Shown(DefaultRegistry(lib)[key].extract(p).value) == Said(lib, p, key)
  }

  lemma EnumFieldsTell(lib: Library, p: Property, key: string)
    requires key in ENUM_NAMES
    ensures Tells(lib, p, key)
  {
    EnumFieldsRead(lib, p);
    hide DefaultRegistry, OpsByType;
  }

  lemma NumberFieldsTell(lib: Library, p: Property, key: string)
    requires key in NUMBER_NAMES && PricePerM2(lib, p).Success?
    ensures Tells(lib, p, key)
  {
    AmountFieldsRead(lib, p);
    PricePerM2Reads(lib, p);
    DifferentNames();
    hide DefaultRegistry, OpsByType, Value, ENUM_NAMES;
    assert key !in ENUM_NAMES;
  }

  lemma TextFieldsTell(lib: Library, p: Property, key: string)
    requires key in TEXT_NAMES
    ensures Tells(lib, p, key)
  {
    TextFieldsRead(lib, p);
    DifferentNames();
    hide DefaultRegistry, OpsByType, Value, ENUM_NAMES, NUMBER_NAMES;
    assert key !in ENUM_NAMES && key !in NUMBER_NAMES;
  }

  lemma FlagFieldsTell(lib: Library, p: Property, flag: string)
    requires flag in FLAGS
    ensures Tells(lib, p, "features." + flag)
  {
    FlagFieldsRead(lib, p, flag);
    FlagsAreSaid(lib, p, flag);
    hide DefaultRegistry, OpsByType, Said, FLAGS;
  }

  lemma FlagsAreSaid(lib: Library, p: Property, flag: string)
    ensures Said(lib, p, "features." + flag) == if flag in p.features then Some(Truth(p.features[flag])) else None
  {
    hide NumberFact, EnumFact, TextFact, ENUM_NAMES, NUMBER_NAMES, TEXT_NAMES;
    NamesHaveNoFlag();
    FlagKey(flag);
  }

  lemma FlagKey(flag: string)
    ensures var key := "features." + flag; |key| >= 9 && key[8] == '.' && key[9..] == flag
  {
  }

  lemma FieldsTell(lib: Library, p: Property, key: string)
    requires key in DefaultRegistry(lib) && PricePerM2(lib, p).Success?
    ensures Tells(lib, p, key)
  {
    ShippedFields(lib);
    hide DefaultRegistry, Tells, PricePerM2, FLAGS;
    if key in ENUM_NAMES {
      EnumFieldsTell(lib, p, key);
    } else if key in NUMBER_NAMES {
      NumberFieldsTell(lib, p, key);
    } else if key in TEXT_NAMES {
      TextFieldsTell(lib, p, key);
    } else {
      var flag :| flag in FLAGS && key == "features." + flag;
      FlagFieldsTell(lib, p, flag);
    }
  }

  /** A value of the field's type against a condition on the field. */
  ghost predicate Fits(fieldType: FieldType, actual: Option<Scalar>, operator: Operator, value: ConditionValue) {
    && operator in OpsByType(fieldType) && ShapeFits(operator, value) && TypedValue(value, fieldType)
    && (actual.Some? ==> HasType(actual.value, fieldType))
  }

  lemma NumbersAsk(lib: Library, fieldType: FieldType, a: Scalar, operator: Operator, value: ConditionValue)
    requires Fits(fieldType, Some(a), operator, value) && fieldType in {NUMERIC, MONEY, AREA} && operator !in NULLARY
    ensures Matches(lib, operator, Some(a), value) == Success(Asks(lib, operator, value, Shown(Some(a))))
  {
    hide Matches, Value;
    if value.Single? {
      NumbersCompare(lib, a, value.scalar, FactOf(a).x, FactOf(value.scalar).x);
    } else {
      var low, high := value.items[0], value.items[1];
      assert HasType(low, fieldType) && HasType(high, fieldType) && value.items == [low, high];
      NumbersBetween(lib, a, low, high, FactOf(a).x, FactOf(low).x, FactOf(high).x);
    }
  }

  lemma TextsAsk(lib: Library, fieldType: FieldType, a: Scalar, operator: Operator, value: ConditionValue)
    requires Fits(fieldType, Some(a), operator, value) && fieldType in {ENUM, TEXT} && operator !in NULLARY
    ensures Matches(lib, operator, Some(a), value) == Success(Asks(lib, operator, value, Shown(Some(a))))
  {
    hide Matches, StandsIn;
    if value.Single? {
      TextsCompare(lib, a.s, value.scalar.s);
      PartsAreFound(lib, a, value.scalar);
    } else {
      MembershipMeans(lib, a, value.items);
      forall b | b in value.items
        ensures Matches(lib, EQ, Some(a), Single(b)) == Success(FactOf(a) == FactOf(b))
      {
        assert HasType(b, fieldType);
        TextsCompare(lib, a.s, b.s);
      }
    }
  }

  lemma TruthsAsk(lib: Library, a: Scalar, operator: Operator, value: ConditionValue)
    requires Fits(BOOL, Some(a), operator, value) && operator !in NULLARY
    ensures Matches(lib, operator, Some(a), value) == Success(Asks(lib, operator, value, Shown(Some(a))))
  {
    hide Matches;
    var x, y := if a.b then 1.0 else 0.0, if value.scalar.b then 1.0 else 0.0;
    NumbersCompare(lib, a, value.scalar, x, y);
  }

  lemma OperatorsAsk(
    lib: Library, fieldType: FieldType, actual: Option<Scalar>, operator: Operator, value: ConditionValue)
    requires Fits(fieldType, actual, operator, value)
    ensures Matches(lib, operator, actual, value) == Success(Asks(lib, operator, value, Shown(actual)))
  {
    hide Matches, TypedValue;
    PresenceMeans(lib, actual, operator, value);
    if actual.Some? && operator !in NULLARY {
      if fieldType.ENUM? || fieldType.TEXT? {
        TextsAsk(lib, fieldType, actual.value, operator, value);
      } else if fieldType.BOOL? {
        TruthsAsk(lib, actual.value, operator, value);
      } else {
        NumbersAsk(lib, fieldType, actual.value, operator, value);
      }
    }
  }

  /**
  Alerts mean what they say: on the shipped registry, a typed tree holds on a property exactly when the
  property's own numbers, texts and flags are what it wants.
  */
  lemma {:induction false} TreesMeanWhatTheySay(lib: Library, node: Node, p: Property)
    requires WellFormed(node) && Typed(DefaultRegistry(lib), node) && PricePerM2(lib, p).Success?
    ensures Meaning(lib, DefaultRegistry(lib), node, p) <==> Wants(lib, node, p)
  {
    hide DefaultRegistry, PricePerM2;
    match node
    case Condition(fieldKey, operator, value) =>
      LeavesMeanWhatTheySay(lib, fieldKey, operator, value, p);
    case Group(_, children) =>
      forall c | c in children
        ensures Meaning(lib, DefaultRegistry(lib), c, p) <==> Wants(lib, c, p)
      {
        TreesMeanWhatTheySay(lib, c, p);
      }
  }

  lemma LeavesMeanWhatTheySay(lib: Library, fieldKey: string, operator: Operator, value: ConditionValue, p: Property)
    requires TypedLeaf(DefaultRegistry(lib), fieldKey, operator, value) && PricePerM2(lib, p).Success?
    ensures LeafHolds(lib, DefaultRegistry(lib), fieldKey, operator, value, p)
            <==> Asks(lib, operator, value, Said(lib, p, fieldKey))
  {
    hide DefaultRegistry, PricePerM2, Said, Matches, Asks, OpsByType, TypedValue, ShapeFits;
    DefaultRegistryIsTyped(lib, p);
    FieldsTell(lib, p, fieldKey);
    var field := DefaultRegistry(lib)[fieldKey];
    OperatorsAsk(lib, field.fieldType, field.extract(p).value, operator, value);
  }

  /** The candidates that a tree wants, in their order. */
  ghost function Wanted(lib: Library, node: Node, candidates: seq<Property>): seq<Property>
    requires WellFormed(node)
  {
    if candidates == [] then []
    else (if Wants(lib, node, candidates[0]) then [candidates[0]] else []) + Wanted(lib, node, candidates[1..])
  }

  /** So the engine, given a typed tree and the shipped registry, returns the candidates that the tree wants. */
  lemma {:induction false} EngineReturnsTheWanted(lib: Library, node: Node, candidates: seq<Property>)
    requires WellFormed(node) && Typed(DefaultRegistry(lib), node)
    requires forall p :: p in candidates ==> PricePerM2(lib, p).Success?
    ensures Evaluate(lib, DefaultRegistry(lib), node, candidates) == Success(Wanted(lib, node, candidates))
  {
    hide DefaultRegistry, PricePerM2, Evaluate, Meaning, Wants, Typed, WellFormed, Readable;
    var any: Property :| true;
    DefaultRegistryIsTyped(lib, any);
    forall p | p in candidates
      ensures Readable(DefaultRegistry(lib), p)
    {
      DefaultRegistryIsTyped(lib, p);
    }
    EngineFindsTheMatches(lib, DefaultRegistry(lib), node, candidates);
    WantedAreTheMatches(lib, node, candidates);
  }

  lemma {:induction false} WantedAreTheMatches(lib: Library, node: Node, candidates: seq<Property>)
    requires WellFormed(node) && Typed(DefaultRegistry(lib), node)
    requires forall p :: p in candidates ==> PricePerM2(lib, p).Success?
    ensures Matching(lib, DefaultRegistry(lib), node, candidates) == Wanted(lib, node, candidates)
  {
    hide DefaultRegistry, PricePerM2, Meaning, Wants, Typed, WellFormed;
    if candidates == [] {
    } else {
      TreesMeanWhatTheySay(lib, node, candidates[0]);
      WantedAreTheMatches(lib, node, candidates[1..]);
    }
  }

  /** Said once more for one condition: an upper bound on the area. */
  lemma AreaBelow(lib: Library, d: Decimal, p: Property)
    ensures var c := Condition("area", LT, Single(Dec(d)));
            Meaning(lib, DefaultRegistry(lib), c, p) <==> p.area.Some? && Value(p.area.value) < Value(d)
  {
    AmountFieldsRead(lib, p);
    hide DefaultRegistry, Value;
    if p.area.Some? {
      NumbersCompare(lib, Dec(p.area.value), Dec(d), Value(p.area.value), Value(d));
    }
  }
}
