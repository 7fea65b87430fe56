/**
The rule engine: operator strategies, field registry, specifications, the factory that compiles a
condition tree into a specification, and the alert engine that filters candidates with it.
*/
module Rules {
  import opened Wrappers
  import opened Decimals
  import opened Conditions
  import Texts

  datatype Money = Money(amount: Decimal, currency: string)

  /** The canonical property; enumeration members are given by their value strings. */
  datatype Property = Property(
    id: nat, listingType: string, propertyType: string, province: string, municipality: Option<string>,
    landType: Option<string>, status: string, price: Option<Money>, area: Option<Decimal>,
    plotArea: Option<Decimal>, rooms: Option<int>, bathrooms: Option<int>, postalCode: Option<string>,
    district: Option<string>, title: string, description: string, features: map<string, bool>,
    images: seq<string>, videos: seq<string>)

  /**
  What Python itself computes: `fold` is the case and accent folding of text, `show` is `str`, and
  `quotient` is the division of two Decimals in the current context.
  */
  datatype Library = Library(
    fold: string -> string, show: Scalar -> string, quotient: (Decimal, Decimal) -> Decimal)

  // ----- Operator strategies

  function Number(s: Scalar): Option<real> {
    match s
    case Str(_) => None
    case Int(i) => Some(i as real)
    case Dec(d) => Some(Value(d))
    case Bool(b) => Some(if b then 1.0 else 0.0)
  }

  /** Python's `a == b`: numbers of any type by value, texts by content, never one with the other. */
  predicate Same(a: Scalar, b: Scalar) {
    if Number(a).Some? && Number(b).Some? then Number(a) == Number(b)
    else a.Str? && b.Str? && a.s == b.s
  }

  /** Python's `a < b`; a text and a number do not compare. */
  function LessThan(a: Scalar, b: Scalar): Result<bool, Error> {
    if Number(a).Some? && Number(b).Some? then Success(Number(a).value < Number(b).value)
    else if a.Str? && b.Str? then Success(Texts.Less(a.s, b.s))
    else Failure(TypeError)
  }

  /** Python's `a <= b`. */
  function AtMost(a: Scalar, b: Scalar): Result<bool, Error> {
    if Number(a).Some? && Number(b).Some? then Success(Number(a).value <= Number(b).value)
    else if a.Str? && b.Str? then Success(Texts.Less(a.s, b.s) || a.s == b.s)
    else Failure(TypeError)
  }

  predicate Occurs(part: string, text: string) {
    part <= text || (text != [] && Occurs(part, text[1..]))
  }

  /** CONTAINS asks whether the part stands somewhere in the text. */
  lemma {:induction false} OccursIffSomewhere(part: string, text: string)
    ensures Occurs(part, text) <==> exists i | 0 <= i <= |text| :: part <= text[i..]
  {
    if text != [] {
      var rest := text[1..];
      OccursIffSomewhere(part, rest);
      if i :| 0 <= i <= |text| && part <= text[i..] {
        if i > 0 {
          assert rest[i - 1..] == text[i..];
        } else {
          assert text[0..] == text;
        }
      }
      if i :| 0 <= i <= |rest| && part <= rest[i..] {
        assert rest[i..] == text[i + 1..];
      }
      if part <= text {
        assert text[0..] == text;
      }
    } else {
      assert text[0..] == text;
    }
  }

  predicate Among(a: Scalar, items: seq<Scalar>) {
    exists i :: 0 <= i < |items| && Same(a, items[i])
  }

  /** The strategies that take one scalar. */
  function MatchesScalar(lib: Library, operator: Operator, a: Scalar, e: Scalar): Result<bool, Error> {
    match operator
    case EQ => Success(Same(a, e))
    case NEQ => Success(!Same(a, e))
    case LT => LessThan(a, e)
    case LTE => AtMost(a, e)
    case GT => LessThan(e, a)
    case GTE => AtMost(e, a)
    case CONTAINS => Success(Occurs(lib.fold(lib.show(e)), lib.fold(lib.show(a))))
    case NOT_CONTAINS => Success(!Occurs(lib.fold(lib.show(e)), lib.fold(lib.show(a))))
    case _ => Failure(TypeError)
  }

  /** The strategies that take a tuple. */
  function MatchesTuple(operator: Operator, a: Scalar, items: seq<Scalar>): Result<bool, Error> {
    match operator
    case BETWEEN =>
      if |items| != 2 then Failure(ValueError)
      else
        var above :- AtMost(items[0], a);
        if above then AtMost(a, items[1]) else Success(false)
    case IN => Success(Among(a, items))
    case NOT_IN => Success(!Among(a, items))
    case _ => Failure(TypeError)
  }

  /**
  The thirteen strategies.  An unknown value (None) fails every comparison but NOT_EXISTS.  A value of
  a shape that the condition's constructor refuses never gets here; it counts as a type error.
  */
  function Matches(lib: Library, operator: Operator, actual: Option<Scalar>, expected: ConditionValue)
    : Result<bool, Error>
  {
    if operator == EXISTS then Success(actual.Some?)
    else if operator == NOT_EXISTS then Success(actual.None?)
    else if actual.None? then Success(operator == EQ && expected.Absent?)
    else match expected
      case Single(e) => MatchesScalar(lib, operator, actual.value, e)
      case Tuple(items) => MatchesTuple(operator, actual.value, items)
      case Absent => Failure(TypeError)
  }

  /** An unknown value passes NOT_EXISTS and no other well-shaped condition. */
  lemma UnknownMatchesOnlyNotExists(lib: Library, operator: Operator, expected: ConditionValue)
    requires ShapeFits(operator, expected)
    ensures Matches(lib, operator, None, expected) == Success(operator == NOT_EXISTS)
  {
  }

  // ----- Field registry

  datatype FieldType = NUMERIC | MONEY | AREA | ENUM | TEXT | BOOL | GEO

  function OpsByType(fieldType: FieldType): set<Operator> {
    match fieldType
    case ENUM => {EQ, NEQ, IN, NOT_IN, EXISTS, NOT_EXISTS}
    case TEXT => {EQ, NEQ, CONTAINS, NOT_CONTAINS, IN, NOT_IN, EXISTS, NOT_EXISTS}
    case BOOL => {EQ, NEQ, EXISTS, NOT_EXISTS}
    case GEO => {}
    case _ => {EQ, NEQ, LT, LTE, GT, GTE, BETWEEN, EXISTS, NOT_EXISTS}
  }

  type Extractor = Property -> Result<Option<Scalar>, Error>

  datatype FieldDescriptor = FieldDescriptor(fieldType: FieldType, extract: Extractor, allowed: set<Operator>)

  type Registry = map<string, FieldDescriptor>

  predicate HasType(s: Scalar, fieldType: FieldType) {
    match fieldType
    case NUMERIC => s.Int?
    case MONEY => s.Dec?
    case AREA => s.Dec?
    case ENUM => s.Str?
    case TEXT => s.Str?
    case BOOL => s.Bool?
    case GEO => false
  }

  /** Every field of the registry can be read from this property. */
  ghost predicate Readable(reg: Registry, p: Property) {
    forall key :: key in reg ==> reg[key].extract(p).Success?
  }

  /** Fields carry the operators of their type, and what they extract has that type. */
  ghost predicate TypedRegistry(reg: Registry) {
    forall key :: key in reg ==>
      && reg[key].allowed == OpsByType(reg[key].fieldType)
      && forall p: Property {:trigger reg[key].extract(p)} ::
           reg[key].extract(p).Success? && reg[key].extract(p).value.Some? ==>
             HasType(reg[key].extract(p).value.value, reg[key].fieldType)
  }

  function Text(value: Option<string>): Option<Scalar> {
    match value case None => None case Some(s) => Some(Str(s))
  }

  function Amount(value: Option<Decimal>): Option<Scalar> {
    match value case None => None case Some(d) => Some(Dec(d))
  }

  function Count(value: Option<int>): Option<Scalar> {
    match value case None => None case Some(i) => Some(Int(i))
  }

  function Flag(p: Property, flag: string): Option<Scalar> {
    if flag in p.features then Some(Bool(p.features[flag])) else None
  }

  /** `Property.price_per_m2`: PricePerM2 refuses a quotient that is not positive. */
  function PricePerM2(lib: Library, p: Property): Result<Option<Decimal>, Error> {
    if p.price.None? || p.area.None? then Success(None)
    else
      var q := lib.quotient(p.price.value.amount, p.area.value);
      if Value(q) <= 0.0 then Failure(ValueError) else Success(Some(q))
  }

  /** Division keeps the sign: by a positive number, exactly the positive quotients come from positive numbers. */
  ghost predicate DividesBySign(lib: Library) {
    forall a, b :: 0.0 < Value(b) ==> (0.0 < Value(lib.quotient(a, b)) <==> 0.0 < Value(a))
  }

  /** What `Money` and `Area` demand of their numbers. */
  predicate IsValued(p: Property) {
    && (p.price.Some? ==> 0.0 <= Value(p.price.value.amount))
    && (p.area.Some? ==> 0.0 < Value(p.area.value))
  }

  /** On offer for nothing, with a known area. */
  predicate IsFree(p: Property) {
    p.price.Some? && p.area.Some? && Value(p.price.value.amount) == 0.0
  }

  /** The price per m² of a property fails exactly when its price is zero and its area known. */
  lemma PricePerM2FailsIffFree(lib: Library, p: Property)
    requires DividesBySign(lib) && IsValued(p)
    ensures PricePerM2(lib, p).Failure? <==> IsFree(p)
  {
    hide Value;
    if p.price.Some? && p.area.Some? {
      assert 0.0 < Value(lib.quotient(p.price.value.amount, p.area.value)) <==> 0.0 < Value(p.price.value.amount);
    }
  }

  const FEATURE_FLAGS: seq<string> :=
    ["has_lift", "has_terrace", "has_garden", "has_parking", "has_pool", "is_new_build"]

  function Field(fieldType: FieldType, extract: Extractor): FieldDescriptor {
    FieldDescriptor(fieldType, extract, OpsByType(fieldType))
  }

  function FlagFields(n: nat): Registry
    requires n <= |FEATURE_FLAGS|
  {
    if n == 0 then map[]
    else FlagFields(n - 1)["features." + FEATURE_FLAGS[n - 1] :=
           Field(BOOL, (p: Property) => Success(Flag(p, FEATURE_FLAGS[n - 1])))]
  }

  function EnumFields(): Registry {
    map[
      "province" := Field(ENUM, (p: Property) => Success(Some(Str(p.province)))),
      "municipality" := Field(ENUM, (p: Property) => Success(Text(p.municipality))),
      "property_type" := Field(ENUM, (p: Property) => Success(Some(Str(p.propertyType)))),
      "land_type" := Field(ENUM, (p: Property) => Success(Text(p.landType))),
      "listing_type" := Field(ENUM, (p: Property) => Success(Some(Str(p.listingType)))),
      "status" := Field(ENUM, (p: Property) => Success(Some(Str(p.status))))]
  }

  function NumberFields(lib: Library): Registry {
    map[
      "price" := Field(MONEY, (p: Property) =>
        Success(if p.price.Some? then Some(Dec(p.price.value.amount)) else None)),
      "price_per_m2" := Field(MONEY, (p: Property) =>
        match PricePerM2(lib, p) case Success(q) => Success(Amount(q)) case Failure(e) => Failure(e)),
      "area" := Field(AREA, (p: Property) => Success(Amount(p.area))),
      "plot_area" := Field(AREA, (p: Property) => Success(Amount(p.plotArea))),
      "rooms" := Field(NUMERIC, (p: Property) => Success(Count(p.rooms))),
      "bathrooms" := Field(NUMERIC, (p: Property) => Success(Count(p.bathrooms)))]
  }

  function TextFields(): Registry {
    map[
      "postal_code" := Field(TEXT, (p: Property) => Success(Text(p.postalCode))),
      "district" := Field(TEXT, (p: Property) => Success(Text(p.district))),
      "title" := Field(TEXT, (p: Property) => Success(Some(Str(p.title)))),
      "description" := Field(TEXT, (p: Property) => Success(Some(Str(p.description))))]
  }

  function DefaultRegistry(lib: Library): Registry {
    EnumFields() + NumberFields(lib) + TextFields() + FlagFields(|FEATURE_FLAGS|)
  }

  lemma TypedUnion(a: Registry, b: Registry, p: Property)
    requires TypedRegistry(a) && TypedRegistry(b) && a.Keys !! b.Keys
    ensures TypedRegistry(a + b)
    ensures Readable(a + b, p) <==> Readable(a, p) && Readable(b, p)
  {
    forall key | key in a + b
      ensures (a + b)[key] == if key in b then b[key] else a[key]
    {
    }
    if Readable(a + b, p) {
      assert forall key :: key in a ==> key in a + b && (a + b)[key] == a[key];
      assert forall key :: key in b ==> key in a + b && (a + b)[key] == b[key];
    }
  }

  lemma {:induction false} FlagFieldsAreTyped(n: nat, p: Property)
    requires n <= |FEATURE_FLAGS|
    ensures TypedRegistry(FlagFields(n)) && Readable(FlagFields(n), p)
  {
    if n == 0 {
    } else {
      hide FEATURE_FLAGS, TypedRegistry, Readable;
      FlagFieldsAreTyped(n - 1, p);
      OneMoreFlag(FlagFields(n - 1), FEATURE_FLAGS[n - 1], p);
    }
  }

  lemma OneMoreFlag(reg: Registry, flag: string, p: Property)
    requires TypedRegistry(reg) && Readable(reg, p)
    ensures var more := reg["features." + flag := Field(BOOL, (p: Property) => Success(Flag(p, flag)))];
            TypedRegistry(more) && Readable(more, p)
  {
    hide OpsByType;
  }

  lemma EnumFieldsAreTyped(p: Property)
    ensures TypedRegistry(EnumFields()) && Readable(EnumFields(), p)
  {
  }

  lemma TextFieldsAreTyped(p: Property)
    ensures TypedRegistry(TextFields()) && Readable(TextFields(), p)
  {
  }

  lemma NumberFieldsAreTyped(lib: Library, p: Property)
    ensures TypedRegistry(NumberFields(lib))
    ensures Readable(NumberFields(lib), p) <==> PricePerM2(lib, p).Success?
  {
    hide PricePerM2;
    assert "price_per_m2" in NumberFields(lib);
  }

  /** The shipped registry is well typed, and can fail on a property only through its price per m². */
  lemma DefaultRegistryIsTyped(lib: Library, p: Property)
    ensures TypedRegistry(DefaultRegistry(lib))
    ensures Readable(DefaultRegistry(lib), p) <==> PricePerM2(lib, p).Success?
  {
    hide EnumFields, NumberFields, TextFields, FlagFields, TypedRegistry, Readable;
    EnumFieldsAreTyped(p);
    NumberFieldsAreTyped(lib, p);
    TextFieldsAreTyped(p);
    FlagFieldsAreTyped(|FEATURE_FLAGS|, p);
    PartsAreDisjoint(lib);
    TypedUnion(EnumFields(), NumberFields(lib), p);
    TypedUnion(EnumFields() + NumberFields(lib), TextFields(), p);
    TypedUnion(EnumFields() + NumberFields(lib) + TextFields(), FlagFields(|FEATURE_FLAGS|), p);
  }

  /** So reading a property through the shipped registry fails exactly when the property is free. */
  lemma ReadableUnlessFree(lib: Library, p: Property)
    requires DividesBySign(lib) && IsValued(p)
    ensures Readable(DefaultRegistry(lib), p) <==> !IsFree(p)
  {
    hide DefaultRegistry, Readable, PricePerM2, IsFree, IsValued, DividesBySign;
    DefaultRegistryIsTyped(lib, p);
    PricePerM2FailsIffFree(lib, p);
  }

  lemma DisjointFields(lib: Library)
    ensures EnumFields().Keys !! NumberFields(lib).Keys
    ensures (EnumFields() + NumberFields(lib)).Keys !! TextFields().Keys
  {
    hide EnumFields, NumberFields, TextFields;
    FieldNames(lib);
    DifferentNames();
  }

  const ENUM_NAMES: set<string> :=
    {"province", "municipality", "property_type", "land_type", "listing_type", "status"}
  const NUMBER_NAMES: set<string> := {"price", "price_per_m2", "area", "plot_area", "rooms", "bathrooms"}
  const TEXT_NAMES: set<string> := {"postal_code", "district", "title", "description"}

  lemma FieldNames(lib: Library)
    ensures EnumFields().Keys == ENUM_NAMES
    ensures NumberFields(lib).Keys == NUMBER_NAMES
    ensures TextFields().Keys == TEXT_NAMES
  {
  }

  lemma DifferentNames()
    ensures ENUM_NAMES !! NUMBER_NAMES && ENUM_NAMES !! TEXT_NAMES && NUMBER_NAMES !! TEXT_NAMES
  {
  }

  // ----- Looking up the shipped fields

  lemma {:induction false} FlagNames(n: nat)
    requires n <= |FEATURE_FLAGS|
    ensures FlagFields(n).Keys == set i | 0 <= i < n :: "features." + FEATURE_FLAGS[i]
    ensures forall key :: key in FlagFields(n) ==> |key| >= 9 && key[8] == '.'
  {
    hide FEATURE_FLAGS;
    if n == 0 {
      assert FlagFields(n) == map[];
    } else {
      FlagNames(n - 1);
      assert ("features." + FEATURE_FLAGS[n - 1])[8] == '.';
    }
  }

  /** The four parts of the registry share no key, so that each field is the one of its part. */
  lemma PartsAreDisjoint(lib: Library)
    ensures EnumFields().Keys !! NumberFields(lib).Keys
    ensures (EnumFields() + NumberFields(lib)).Keys !! TextFields().Keys
    ensures (EnumFields() + NumberFields(lib) + TextFields()).Keys !! FlagFields(|FEATURE_FLAGS|).Keys
  {
    hide EnumFields, NumberFields, TextFields, FlagFields, FEATURE_FLAGS;
    DisjointFields(lib);
    FieldNames(lib);
    NamesHaveNoFlag();
    FlagNames(|FEATURE_FLAGS|);
    hide ENUM_NAMES, NUMBER_NAMES, TEXT_NAMES;
  }

  lemma NamesHaveNoFlag()
    ensures forall key :: key in ENUM_NAMES + NUMBER_NAMES + TEXT_NAMES ==> |key| < 9 || key[8] != '.'
  {
  }

  lemma EnumFieldLookup(lib: Library, key: string)
    requires key in EnumFields()
    ensures key in DefaultRegistry(lib) && DefaultRegistry(lib)[key] == EnumFields()[key]
  {
    hide EnumFields, NumberFields, TextFields, FlagFields;
    PartsAreDisjoint(lib);
  }

  lemma NumberFieldLookup(lib: Library, key: string)
    requires key in NumberFields(lib)
    ensures key in DefaultRegistry(lib) && DefaultRegistry(lib)[key] == NumberFields(lib)[key]
  {
    hide EnumFields, NumberFields, TextFields, FlagFields;
    PartsAreDisjoint(lib);
  }

  lemma TextFieldLookup(lib: Library, key: string)
    requires key in TextFields()
    ensures key in DefaultRegistry(lib) && DefaultRegistry(lib)[key] == TextFields()[key]
  {
    hide EnumFields, NumberFields, TextFields, FlagFields;
    PartsAreDisjoint(lib);
  }

  lemma FlagFieldLookup(lib: Library, key: string)
    requires key in FlagFields(|FEATURE_FLAGS|)
    ensures key in DefaultRegistry(lib) && DefaultRegistry(lib)[key] == FlagFields(|FEATURE_FLAGS|)[key]
  {
    hide EnumFields, NumberFields, TextFields, FlagFields;
    PartsAreDisjoint(lib);
  }

  // ----- Specifications and the factory that compiles trees into them

  datatype Specification =
    | FieldSpecification(descriptor: FieldDescriptor, operator: Operator, expected: ConditionValue)
    | AndSpecification(specs: seq<Specification>)
    | OrSpecification(specs: seq<Specification>)
    | NotSpecification(spec: Specification)

  /** `is_satisfied_by`, with Python's left-to-right short circuits. */
  function Satisfied(lib: Library, spec: Specification, p: Property): Result<bool, Error>
    decreases spec
  {
    match spec
    case FieldSpecification(descriptor, operator, expected) =>
      var actual :- descriptor.extract(p);
      Matches(lib, operator, actual, expected)
    case AndSpecification(specs) => All(lib, specs, p)
    case OrSpecification(specs) => Any(lib, specs, p)
    case NotSpecification(inner) =>
      var verdict :- Satisfied(lib, inner, p);
      Success(!verdict)
  }

  function All(lib: Library, specs: seq<Specification>, p: Property): Result<bool, Error>
    decreases specs
  {
    if specs == [] then Success(true)
    else
      var first :- Satisfied(lib, specs[0], p);
      if first then All(lib, specs[1..], p) else Success(false)
  }

  function Any(lib: Library, specs: seq<Specification>, p: Property): Result<bool, Error>
    decreases specs
  {
    if specs == [] then Success(false)
    else
      var first :- Satisfied(lib, specs[0], p);
      if first then Success(true) else Any(lib, specs[1..], p)
  }

  /** `SpecificationFactory`: unknown fields and operators that do not fit are InvalidConditionErrors. */
  function Compile(reg: Registry, node: Node): Result<Specification, Error>
    decreases node
  {
    match node
    case Condition(fieldKey, operator, value) =>
      if fieldKey !in reg || operator !in reg[fieldKey].allowed then Failure(InvalidCondition)
      else Success(FieldSpecification(reg[fieldKey], operator, value))
    case Group(combinator, children) =>
      var specs :- CompileAll(reg, children);
      match combinator
      case ALL => Success(AndSpecification(specs))
      case ANY => Success(OrSpecification(specs))
      case NONE => Success(NotSpecification(OrSpecification(specs)))
  }

  function CompileAll(reg: Registry, nodes: seq<Node>): (r: Result<seq<Specification>, Error>)
    ensures r.Success? ==> |r.value| == |nodes|
    decreases nodes
  {
    if nodes == [] then Success([])
    else
      var first :- Compile(reg, nodes[0]);
      var rest :- CompileAll(reg, nodes[1..]);
      Success([first] + rest)
  }

  // ----- What a tree means

  predicate LeafHolds(
    lib: Library, reg: Registry, fieldKey: string, operator: Operator, value: ConditionValue, p: Property) {
    && fieldKey in reg
    && reg[fieldKey].extract(p).Success?
    && Matches(lib, operator, reg[fieldKey].extract(p).value, value) == Success(true)
  }

  /** ALL: every child holds; ANY: some child holds; NONE: no child holds. */
  predicate Meaning(lib: Library, reg: Registry, node: Node, p: Property) {
    match node
    case Condition(fieldKey, operator, value) => LeafHolds(lib, reg, fieldKey, operator, value, p)
    case Group(combinator, children) =>
      match combinator
      case ALL => forall c :: c in children ==> Meaning(lib, reg, c, p)
      case ANY => exists c :: c in children && Meaning(lib, reg, c, p)
      case NONE => forall c :: c in children ==> !Meaning(lib, reg, c, p)
  }

  /**
  Compilation preserves meaning: whenever the compiled specification gives a verdict, it is the tree's
  own, even if some leaf that the short circuits skip could not be evaluated.
  */
  lemma {:induction false} CompilationPreservesMeaning(lib: Library, reg: Registry, node: Node, p: Property)
    requires Compile(reg, node).Success? && Satisfied(lib, Compile(reg, node).value, p).Success?
    ensures Satisfied(lib, Compile(reg, node).value, p).value == Meaning(lib, reg, node, p)
    decreases node
  {
    if node.Group? {
      var specs := CompileAll(reg, node.children).value;
      if node.combinator == ALL {
        AllMeans(lib, reg, node.children, p);
      } else {
        AnyMeans(lib, reg, node.children, p);
      }
    }
  }

  lemma {:induction false} AllMeans(lib: Library, reg: Registry, nodes: seq<Node>, p: Property)
    requires CompileAll(reg, nodes).Success? && All(lib, CompileAll(reg, nodes).value, p).Success?
    ensures All(lib, CompileAll(reg, nodes).value, p).value == forall c :: c in nodes ==> Meaning(lib, reg, c, p)
    decreases nodes
  {
    if nodes == [] {
    } else {
      var specs := CompileAll(reg, nodes).value;
      assert specs[1..] == CompileAll(reg, nodes[1..]).value;
      CompilationPreservesMeaning(lib, reg, nodes[0], p);
      if Satisfied(lib, specs[0], p).value {
        AllMeans(lib, reg, nodes[1..], p);
        assert forall c :: c in nodes <==> c == nodes[0] || c in nodes[1..];
      }
    }
  }

  lemma {:induction false} AnyMeans(lib: Library, reg: Registry, nodes: seq<Node>, p: Property)
    requires CompileAll(reg, nodes).Success? && Any(lib, CompileAll(reg, nodes).value, p).Success?
    ensures Any(lib, CompileAll(reg, nodes).value, p).value == exists c :: c in nodes && Meaning(lib, reg, c, p)
    decreases nodes
  {
    if nodes == [] {
    } else {
      var specs := CompileAll(reg, nodes).value;
      assert specs[1..] == CompileAll(reg, nodes[1..]).value;
      CompilationPreservesMeaning(lib, reg, nodes[0], p);
      if !Satisfied(lib, specs[0], p).value {
        AnyMeans(lib, reg, nodes[1..], p);
        assert forall c :: c in nodes <==> c == nodes[0] || c in nodes[1..];
      }
    }
  }

  // ----- Where the short circuits stop

  /** Every one of the first k specifications gives this verdict. */
  ghost predicate FirstGive(lib: Library, specs: seq<Specification>, p: Property, k: nat, verdict: bool)
    requires k <= |specs|
  {
    forall i :: 0 <= i < k ==> Satisfied(lib, specs[i], p) == Success(verdict)
  }

  /** ALL ends with the first child that does not hold or raises: nothing behind it is looked at. */
  lemma {:induction false} AllStopsAtTheFirst(lib: Library, specs: seq<Specification>, p: Property, k: nat)
    requires k <= |specs| && FirstGive(lib, specs, p, k, true)
    ensures k == |specs| ==> All(lib, specs, p) == Success(true)
    ensures k < |specs| && Satisfied(lib, specs[k], p) != Success(true) ==>
              All(lib, specs, p) == Satisfied(lib, specs[k], p)
  {
    if k > 0 {
      assert Satisfied(lib, specs[0], p) == Success(true);
      assert forall i :: 0 <= i < k - 1 ==> specs[1..][i] == specs[i + 1];
      AllStopsAtTheFirst(lib, specs[1..], p, k - 1);
    }
  }

  /** ANY, and NONE with it, ends with the first child that holds or raises. */
  lemma {:induction false} AnyStopsAtTheFirst(lib: Library, specs: seq<Specification>, p: Property, k: nat)
    requires k <= |specs| && FirstGive(lib, specs, p, k, false)
    ensures k == |specs| ==> Any(lib, specs, p) == Success(false)
    ensures k < |specs| && Satisfied(lib, specs[k], p) != Success(false) ==>
              Any(lib, specs, p) == Satisfied(lib, specs[k], p)
  {
    if k > 0 {
      assert Satisfied(lib, specs[0], p) == Success(false);
      assert forall i :: 0 <= i < k - 1 ==> specs[1..][i] == specs[i + 1];
      AnyStopsAtTheFirst(lib, specs[1..], p, k - 1);
    }
  }

  // ----- Type soundness

  predicate Compilable(reg: Registry, node: Node) {
    match node
    case Condition(fieldKey, operator, _) => fieldKey in reg && operator in reg[fieldKey].allowed
    case Group(_, children) => forall c :: c in children ==> Compilable(reg, c)
  }

  /** The factory accepts a tree exactly when every leaf names a known field with an operator of its type. */
  lemma {:induction false} CompilesIffCompilable(reg: Registry, node: Node)
    ensures Compile(reg, node).Success? <==> Compilable(reg, node)
    ensures Compile(reg, node).Failure? ==> Compile(reg, node).error == InvalidCondition
    decreases node
  {
    if node.Group? {
      AllCompileIffCompilable(reg, node.children);
    }
  }

  lemma {:induction false} AllCompileIffCompilable(reg: Registry, nodes: seq<Node>)
    ensures CompileAll(reg, nodes).Success? <==> forall c :: c in nodes ==> Compilable(reg, c)
    ensures CompileAll(reg, nodes).Failure? ==> CompileAll(reg, nodes).error == InvalidCondition
    decreases nodes
  {
    if nodes == [] {
    } else {
      CompilesIffCompilable(reg, nodes[0]);
      AllCompileIffCompilable(reg, nodes[1..]);
      assert forall c :: c in nodes <==> c == nodes[0] || c in nodes[1..];
    }
  }

  predicate TypedValue(value: ConditionValue, fieldType: FieldType) {
    match value
    case Absent => true
    case Single(s) => HasType(s, fieldType)
    case Tuple(items) => forall i :: 0 <= i < |items| ==> HasType(items[i], fieldType)
  }

  /** A leaf with a known field, an operator of its type, and a value of the right shape and type. */
  predicate TypedLeaf(reg: Registry, fieldKey: string, operator: Operator, value: ConditionValue) {
    && fieldKey in reg && operator in reg[fieldKey].allowed
    && ShapeFits(operator, value) && TypedValue(value, reg[fieldKey].fieldType)
  }

  predicate Typed(reg: Registry, node: Node) {
    match node
    case Condition(fieldKey, operator, value) => TypedLeaf(reg, fieldKey, operator, value)
    case Group(_, children) => forall c :: c in children ==> Typed(reg, c)
  }

  lemma {:induction false} TypedIsCompilable(reg: Registry, node: Node)
    requires Typed(reg, node)
    ensures Compilable(reg, node)
  {
    if node.Group? {
      forall c | c in node.children ensures Compilable(reg, c) {
        TypedIsCompilable(reg, c);
      }
    }
  }

  lemma TypedLeafEvaluates(
    lib: Library, reg: Registry, fieldKey: string, operator: Operator, value: ConditionValue, p: Property)
    requires TypedRegistry(reg) && Readable(reg, p) && TypedLeaf(reg, fieldKey, operator, value)
    ensures Matches(lib, operator, reg[fieldKey].extract(p).value, value).Success?
  {
    var actual := reg[fieldKey].extract(p).value;
    if actual.Some? {
      assert HasType(actual.value, reg[fieldKey].fieldType);
      if value.Tuple? && operator == BETWEEN {
        assert HasType(value.items[0], reg[fieldKey].fieldType);
        assert HasType(value.items[1], reg[fieldKey].fieldType);
      }
    }
  }

  /** Type soundness: a typed tree compiles, and its specification has a verdict on every readable property. */
  lemma {:induction false} TypedTreesEvaluate(lib: Library, reg: Registry, node: Node, p: Property)
    requires TypedRegistry(reg) && Readable(reg, p) && Typed(reg, node)
    ensures Compile(reg, node).Success?
    ensures Satisfied(lib, Compile(reg, node).value, p).Success?
    decreases node
  {
    TypedIsCompilable(reg, node);
    CompilesIffCompilable(reg, node);
    match node
    case Condition(fieldKey, operator, value) =>
      TypedLeafEvaluates(lib, reg, fieldKey, operator, value, p);
    case Group(_, children) =>
      TypedListsEvaluate(lib, reg, children, p);
  }

  lemma {:induction false} TypedListsEvaluate(lib: Library, reg: Registry, nodes: seq<Node>, p: Property)
    requires TypedRegistry(reg) && Readable(reg, p) && (forall c :: c in nodes ==> Typed(reg, c))
    requires CompileAll(reg, nodes).Success?
    ensures All(lib, CompileAll(reg, nodes).value, p).Success?
    ensures Any(lib, CompileAll(reg, nodes).value, p).Success?
    decreases nodes
  {
    if nodes == [] {
    } else {
      var specs := CompileAll(reg, nodes).value;
      assert specs[1..] == CompileAll(reg, nodes[1..]).value;
      TypedTreesEvaluate(lib, reg, nodes[0], p);
      TypedListsEvaluate(lib, reg, nodes[1..], p);
    }
  }

  // ----- Unknown fields and polarity

  /** q is p with some unknown fields made known. */
  ghost predicate Refines(reg: Registry, p: Property, q: Property) {
    forall key :: key in reg ==>
      reg[key].extract(p) == Success(None) || reg[key].extract(q) == reg[key].extract(p)
  }

  /** Trees that learning a field can only turn towards a match; each NONE swaps the two kinds. */
  predicate Rising(node: Node) {
    match node
    case Condition(_, operator, _) => operator != NOT_EXISTS
    case Group(combinator, children) =>
      forall c :: c in children ==> if combinator == NONE then Falling(c) else Rising(c)
  }

  /** Trees that learning a field can only turn away from a match. */
  predicate Falling(node: Node) {
    match node
    case Condition(_, operator, _) => operator == NOT_EXISTS
    case Group(combinator, children) =>
      forall c :: c in children ==> if combinator == NONE then Rising(c) else Falling(c)
  }

  /** Without NONE and NOT_EXISTS a tree is rising. */
  predicate Plain(node: Node) {
    match node
    case Condition(_, operator, _) => operator != NOT_EXISTS
    case Group(combinator, children) => combinator != NONE && forall c :: c in children ==> Plain(c)
  }

  lemma {:induction false} PlainTreesRise(node: Node)
    requires Plain(node)
    ensures Rising(node)
  {
    if node.Group? {
      forall c | c in node.children ensures Rising(c) {
        PlainTreesRise(c);
      }
    }
  }

  /** Learning fields never turns a match of a rising tree into a miss, nor a miss of a falling one into a match. */
  lemma {:induction false} Polarity(lib: Library, reg: Registry, node: Node, p: Property, q: Property)
    requires WellFormed(node) && Refines(reg, p, q)
    ensures Rising(node) && Meaning(lib, reg, node, p) ==> Meaning(lib, reg, node, q)
    ensures Falling(node) && Meaning(lib, reg, node, q) ==> Meaning(lib, reg, node, p)
    decreases node
  {
    match node
    case Condition(fieldKey, operator, value) =>
      UnknownMatchesOnlyNotExists(lib, operator, value);
    case Group(combinator, children) =>
      forall c | c in children
        ensures Rising(c) && Meaning(lib, reg, c, p) ==> Meaning(lib, reg, c, q)
        ensures Falling(c) && Meaning(lib, reg, c, q) ==> Meaning(lib, reg, c, p)
      {
        Polarity(lib, reg, c, p, q);
      }
  }

  // ----- The alert engine

  /** `AlertEngine.evaluate`: the matching candidates, in order. */
  function Evaluate(
    lib: Library, reg: Registry, conditions: Node, candidates: seq<Property>): Result<seq<Property>, Error> {
    var spec :- Compile(reg, conditions);
    Filter(lib, spec, candidates)
  }

  function Filter(lib: Library, spec: Specification, candidates: seq<Property>): Result<seq<Property>, Error> {
    if candidates == [] then Success([])
    else
      var verdict :- Satisfied(lib, spec, candidates[0]);
      var rest :- Filter(lib, spec, candidates[1..]);
      Success(if verdict then [candidates[0]] + rest else rest)
  }

  /** The candidates on which the tree holds, in their order. */
  function Matching(lib: Library, reg: Registry, conditions: Node, candidates: seq<Property>): seq<Property> {
    if candidates == [] then []
    else (if Meaning(lib, reg, conditions, candidates[0]) then [candidates[0]] else [])
         + Matching(lib, reg, conditions, candidates[1..])
  }

  /** Whatever the tree and the candidates: when the engine does not raise, it returns the matches. */
  lemma {:induction false} EngineReturnsMatches(
    lib: Library, reg: Registry, conditions: Node, candidates: seq<Property>)
    requires Evaluate(lib, reg, conditions, candidates).Success?
    ensures Evaluate(lib, reg, conditions, candidates).value == Matching(lib, reg, conditions, candidates)
  {
    hide Satisfied, Compile, Meaning;
    if candidates == [] {
    } else {
      EngineReturnsMatches(lib, reg, conditions, candidates[1..]);
      CompilationPreservesMeaning(lib, reg, conditions, candidates[0]);
      var rest := Matching(lib, reg, conditions, candidates[1..]);
      assert [] + rest == rest;
    }
  }

  lemma {:induction false} EngineFindsTheMatches(
    lib: Library, reg: Registry, conditions: Node, candidates: seq<Property>)
    requires TypedRegistry(reg) && Typed(reg, conditions)
    requires forall p :: p in candidates ==> Readable(reg, p)
    ensures Evaluate(lib, reg, conditions, candidates) == Success(Matching(lib, reg, conditions, candidates))
  {
    TypedIsCompilable(reg, conditions);
    CompilesIffCompilable(reg, conditions);
    if candidates == [] {
    } else {
      EngineFindsTheMatches(lib, reg, conditions, candidates[1..]);
      TypedTreesEvaluate(lib, reg, conditions, candidates[0]);
      CompilationPreservesMeaning(lib, reg, conditions, candidates[0]);
      var rest := Matching(lib, reg, conditions, candidates[1..]);
      assert [] + rest == rest;
    }
  }

  /** The engine raises exactly when the tree does not compile or its specification raises on a candidate. */
  lemma {:induction false} EngineRaisesIff(lib: Library, reg: Registry, conditions: Node, candidates: seq<Property>)
    ensures Evaluate(lib, reg, conditions, candidates).Failure?
            <==> || Compile(reg, conditions).Failure?
                 || exists p :: p in candidates && Satisfied(lib, Compile(reg, conditions).value, p).Failure?
  {
    hide Satisfied, Compile;
    if candidates == [] {
    } else {
      EngineRaisesIff(lib, reg, conditions, candidates[1..]);
      assert candidates[0] in candidates && forall p :: p in candidates[1..] ==> p in candidates;
      assert forall p :: p in candidates ==> p == candidates[0] || p in candidates[1..];
    }
  }
}
