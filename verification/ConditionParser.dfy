/** `FIELD:OPERATOR[:VALUE]` strings into a typed condition tree. */
module ConditionParser {
  import opened Wrappers
  import opened Decimals
  import opened Conditions
  import Rules
  import Texts

  /** The conversions that Python itself does: `str.upper`, `str.lower`, `int(text)` and `Decimal(text)`. */
  datatype Reader = Reader(
    upper: string -> string, lower: string -> string,
    readInt: string -> Option<int>, readDecimal: string -> Option<Decimal>)

  function OperatorName(operator: Operator): string {
    match operator
    case EQ => "EQ"
    case NEQ => "NEQ"
    case LT => "LT"
    case LTE => "LTE"
    case GT => "GT"
    case GTE => "GTE"
    case BETWEEN => "BETWEEN"
    case IN => "IN"
    case NOT_IN => "NOT_IN"
    case CONTAINS => "CONTAINS"
    case NOT_CONTAINS => "NOT_CONTAINS"
    case EXISTS => "EXISTS"
    case NOT_EXISTS => "NOT_EXISTS"
  }

  const OPERATORS: seq<Operator> :=
    [EQ, NEQ, LT, LTE, GT, GTE, BETWEEN, IN, NOT_IN, CONTAINS, NOT_CONTAINS, EXISTS, NOT_EXISTS]

  /** The enumeration's lookup by value: `Operator(name)`. */
  function OperatorNamed(name: string, n: nat := |OPERATORS|): Option<Operator>
    requires n <= |OPERATORS|
  {
    if n == 0 then None
    else if OperatorName(OPERATORS[n - 1]) == name then Some(OPERATORS[n - 1])
    else OperatorNamed(name, n - 1)
  }

  function CoerceScalar(reader: Reader, fieldType: Rules.FieldType, text: string): Result<Scalar, Error> {
    match fieldType
    case MONEY => CoerceDecimal(reader, text)
    case AREA => CoerceDecimal(reader, text)
    case NUMERIC =>
      (match reader.readInt(text)
       case Some(i) => Success(Int(i))
       case None => Failure(InvalidCondition))
    case BOOL =>
      var lowered := reader.lower(Texts.Strip(text));
      if lowered in {"true", "1", "yes"} then Success(Bool(true))
      else if lowered in {"false", "0", "no"} then Success(Bool(false))
      else Failure(InvalidCondition)
    case _ => Success(Str(text))
  }

  function CoerceDecimal(reader: Reader, text: string): Result<Scalar, Error> {
    match reader.readDecimal(text)
    case Some(d) => Success(Dec(d))
    case None => Failure(InvalidCondition)
  }

  function CoerceValue(reader: Reader, fieldType: Rules.FieldType, operator: Operator, text: Option<string>)
    : Result<ConditionValue, Error>
  {
    if operator in NULLARY then Success(Absent)
    else if text.None? then Failure(InvalidCondition)
    else if operator == BETWEEN then
      var (low, high) := Texts.Partition(text.value, ',');
      var first :- CoerceScalar(reader, fieldType, Texts.Strip(low));
      var second :- CoerceScalar(reader, fieldType, Texts.Strip(if high.Some? then high.value else ""));
      Success(Tuple([first, second]))
    else
      var scalar :- CoerceScalar(reader, fieldType, text.value);
      Success(Single(scalar))
  }

  function ParseCondition(reader: Reader, reg: Rules.Registry, raw: string): Result<Node, Error> {
    var (fieldKey, rest) := Texts.Partition(raw, ':');
    if rest.None? then Failure(InvalidCondition)
    else
      var (name, text) := Texts.Partition(rest.value, ':');
      if fieldKey !in reg then Failure(InvalidCondition)
      else
        var operator := OperatorNamed(reader.upper(name));
        if operator.None? then Failure(InvalidCondition)
        else if operator.value !in reg[fieldKey].allowed then Failure(InvalidCondition)
        else
          var value :- CoerceValue(reader, reg[fieldKey].fieldType, operator.value, text);
          MakeCondition(fieldKey, operator.value, value)
  }

  function ParseAll(reader: Reader, reg: Rules.Registry, raws: seq<string>): (r: Result<seq<Node>, Error>)
    ensures r.Success? ==> |r.value| == |raws|
  {
    if raws == [] then Success([])
    else
      var first :- ParseCondition(reader, reg, raws[0]);
      var rest :- ParseAll(reader, reg, raws[1..]);
      Success([first] + rest)
  }

  /** AND-only: every string becomes one leaf of a single ALL group. */
  function ParseConditions(reader: Reader, reg: Rules.Registry, raws: seq<string>): Result<Node, Error> {
    var leaves :- ParseAll(reader, reg, raws);
    MakeGroup(ALL, leaves)
  }

  // ----- What comes out is typed

  lemma CoercedScalarsAreTyped(reader: Reader, fieldType: Rules.FieldType, text: string)
    requires fieldType != Rules.GEO
    ensures var s := CoerceScalar(reader, fieldType, text); s.Success? ==> Rules.HasType(s.value, fieldType)
  {
  }

  /** A parsed condition is a well-formed leaf of the registry, and never a membership test. */
  lemma ParsedConditionsAreTyped(reader: Reader, reg: Rules.Registry, raw: string)
    requires Rules.TypedRegistry(reg) && ParseCondition(reader, reg, raw).Success?
    ensures var c := ParseCondition(reader, reg, raw).value;
            && c.Condition? && WellFormed(c) && Rules.Typed(reg, c)
            && c.operator != IN && c.operator != NOT_IN && ':' !in c.fieldKey
  {
    var (fieldKey, rest) := Texts.Partition(raw, ':');
    var (name, text) := Texts.Partition(rest.value, ':');
    var fieldType := reg[fieldKey].fieldType;
    if text.Some? {
      CoercedScalarsAreTyped(reader, fieldType, text.value);
      var (low, high) := Texts.Partition(text.value, ',');
      CoercedScalarsAreTyped(reader, fieldType, Texts.Strip(low));
      CoercedScalarsAreTyped(reader, fieldType, Texts.Strip(if high.Some? then high.value else ""));
    }
  }

  lemma {:induction false} AllParsedAreTyped(reader: Reader, reg: Rules.Registry, raws: seq<string>)
    requires Rules.TypedRegistry(reg) && ParseAll(reader, reg, raws).Success?
    ensures forall c :: c in ParseAll(reader, reg, raws).value ==> c.Condition? && WellFormed(c) && Rules.Typed(reg, c)
  {
    if raws == [] {
    } else {
      ParsedConditionsAreTyped(reader, reg, raws[0]);
      AllParsedAreTyped(reader, reg, raws[1..]);
    }
  }

  /**
  Type soundness of the condition language: what `parse_conditions` returns compiles against the same
  registry, and its specification has a verdict on every readable property: the tree's own meaning.
  */
  lemma ParsedTreesNeverFail(
    reader: Reader, lib: Rules.Library, reg: Rules.Registry, raws: seq<string>, p: Rules.Property)
    requires Rules.TypedRegistry(reg) && Rules.Readable(reg, p)
    requires ParseConditions(reader, reg, raws).Success?
    ensures var tree := ParseConditions(reader, reg, raws).value;
            && WellFormed(tree) && Rules.Typed(reg, tree)
            && Rules.Compile(reg, tree).Success?
            && Rules.Satisfied(lib, Rules.Compile(reg, tree).value, p)
               == Success(forall c :: c in tree.children ==> Rules.Meaning(lib, reg, c, p))
  {
    AllParsedAreTyped(reader, reg, raws);
    var tree := ParseConditions(reader, reg, raws).value;
    Rules.TypedTreesEvaluate(lib, reg, tree, p);
    Rules.CompilationPreservesMeaning(lib, reg, tree, p);
  }

  /** With the shipped registry only a price per m² that is not positive can still raise. */
  lemma ShippedRegistryNeverFails(reader: Reader, lib: Rules.Library, raws: seq<string>, p: Rules.Property)
    requires Rules.PricePerM2(lib, p).Success?
    requires ParseConditions(reader, Rules.DefaultRegistry(lib), raws).Success?
    ensures var reg := Rules.DefaultRegistry(lib);
            var spec := Rules.Compile(reg, ParseConditions(reader, reg, raws).value);
            spec.Success? && Rules.Satisfied(lib, spec.value, p).Success?
  {
    Rules.DefaultRegistryIsTyped(lib, p);
    ParsedTreesNeverFail(reader, lib, Rules.DefaultRegistry(lib), raws, p);
  }

  // ----- Every typed leaf but the membership tests can be written

  /** What Python guarantees about writing a scalar with `str` and reading it back. */
  ghost predicate ReadsBack(reader: Reader, lib: Rules.Library) {
    && (forall operator :: reader.upper(OperatorName(operator)) == OperatorName(operator))
    && (forall s :: lib.show(Str(s)) == s)
    && (forall i :: reader.readInt(lib.show(Int(i))) == Some(i))
    && (forall d :: reader.readDecimal(lib.show(Dec(d))) == Some(d))
    && (forall b :: reader.lower(Texts.Strip(lib.show(Bool(b)))) == if b then "true" else "false")
    && (forall s: Scalar :: (s.Int? || s.Dec?) ==> Texts.Strip(lib.show(s)) == lib.show(s) && ',' !in lib.show(s))
  }

  function Formatted(lib: Rules.Library, c: Node): string
    requires c.Condition?
  {
    c.fieldKey + ":" + OperatorName(c.operator) +
    match c.value
    case Absent => ""
    case Single(s) => ":" + lib.show(s)
    case Tuple(items) =>
      if |items| == 2 then ":" + lib.show(items[0]) + "," + lib.show(items[1]) else ":"
  }

  /** The words for the operators. */
  lemma OperatorWords()
    ensures OperatorNamed("EQ") == Some(EQ) && OperatorNamed("NEQ") == Some(NEQ)
    ensures OperatorNamed("LT") == Some(LT) && OperatorNamed("LTE") == Some(LTE)
    ensures OperatorNamed("GT") == Some(GT) && OperatorNamed("GTE") == Some(GTE)
    ensures OperatorNamed("BETWEEN") == Some(BETWEEN)
    ensures OperatorNamed("IN") == Some(IN) && OperatorNamed("NOT_IN") == Some(NOT_IN)
    ensures OperatorNamed("CONTAINS") == Some(CONTAINS) && OperatorNamed("NOT_CONTAINS") == Some(NOT_CONTAINS)
    ensures OperatorNamed("EXISTS") == Some(EXISTS) && OperatorNamed("NOT_EXISTS") == Some(NOT_EXISTS)
  {
    hide OperatorNamed;
    forall operator
      ensures OperatorNamed(OperatorName(operator)) == Some(operator)
    {
      NamesAreFound(operator);
    }
    assert OperatorName(EQ) == "EQ" && OperatorName(NEQ) == "NEQ" && OperatorName(LT) == "LT";
    assert OperatorName(LTE) == "LTE" && OperatorName(GT) == "GT" && OperatorName(GTE) == "GTE";
    assert OperatorName(BETWEEN) == "BETWEEN" && OperatorName(IN) == "IN" && OperatorName(NOT_IN) == "NOT_IN";
    assert OperatorName(CONTAINS) == "CONTAINS" && OperatorName(NOT_CONTAINS) == "NOT_CONTAINS";
    assert OperatorName(EXISTS) == "EXISTS" && OperatorName(NOT_EXISTS) == "NOT_EXISTS";
  }

  /** There are no others. */
  lemma {:induction false} OtherWordsAreRefused(name: string, n: nat)
    requires n <= |OPERATORS| && OperatorNamed(name, n).Some?
    ensures OperatorName(OperatorNamed(name, n).value) == name
  {
    hide OperatorName, OPERATORS;
    if OperatorName(OPERATORS[n - 1]) != name {
      OtherWordsAreRefused(name, n - 1);
    }
  }

  /** Yes and no, in any case and with blanks around them; nothing else is a flag's value. */
  lemma FlagWords(reader: Reader, text: string)
    ensures var word := reader.lower(Texts.Strip(text));
            CoerceScalar(reader, Rules.BOOL, text)
            == if word == "true" || word == "1" || word == "yes" then Success(Bool(true))
               else if word == "false" || word == "0" || word == "no" then Success(Bool(false))
               else Failure(InvalidCondition)
  {
    hide Texts.Strip;
  }

  /** A range without a comma has an empty text as its upper end. */
  lemma HalfARange(reader: Reader, fieldType: Rules.FieldType, text: string)
    requires ',' !in text
    ensures var low, high := CoerceScalar(reader, fieldType, Texts.Strip(text)), CoerceScalar(reader, fieldType, "");
            CoerceValue(reader, fieldType, BETWEEN, Some(text))
            == if low.Failure? then Failure(low.error) else if high.Failure? then Failure(high.error)
               else Success(Tuple([low.value, high.value]))
  {
    hide CoerceScalar;
    Texts.PartitionNowhere(text, ',');
    assert Texts.Strip("") == "";
  }

  /**
  What is refused, and how: no operator, an unknown field or operator, one that the field does not take,
  no value.
  */
  lemma RefusedTexts(reader: Reader, reg: Rules.Registry, fieldKey: string, name: string, text: Option<string>)
    requires ':' !in fieldKey && ':' !in name
    ensures ParseCondition(reader, reg, fieldKey) == Failure(InvalidCondition)
    ensures var raw := fieldKey + [':'] + name + if text.Some? then [':'] + text.value else [];
            var operator := OperatorNamed(reader.upper(name));
            && (fieldKey !in reg ==> ParseCondition(reader, reg, raw) == Failure(InvalidCondition))
            && (operator.None? ==> ParseCondition(reader, reg, raw) == Failure(InvalidCondition))
            && (fieldKey in reg && operator.Some? && operator.value !in reg[fieldKey].allowed ==>
                  ParseCondition(reader, reg, raw) == Failure(InvalidCondition))
            && (operator.Some? && operator.value !in NULLARY && text.None? ==>
                  ParseCondition(reader, reg, raw) == Failure(InvalidCondition))
  {
    hide OperatorNamed, MakeCondition, Texts.Partition, CoerceScalar;
    Texts.PartitionNowhere(fieldKey, ':');
    var rest := name + if text.Some? then [':'] + text.value else [];
    var raw := fieldKey + [':'] + name + if text.Some? then [':'] + text.value else [];
    assert raw == fieldKey + [':'] + rest;
    Texts.PartitionAt(fieldKey, ':', rest);
    if text.Some? {
      assert rest == name + [':'] + text.value;
      Texts.PartitionAt(name, ':', text.value);
    } else {
      assert rest == name;
      Texts.PartitionNowhere(name, ':');
    }
  }

  lemma NamesAreFound(operator: Operator)
    ensures OperatorNamed(OperatorName(operator)) == Some(operator)
    ensures ':' !in OperatorName(operator)
  {
    var k := OperatorIndex(operator);
    FoundBelow(k, |OPERATORS|);
  }

  lemma OperatorIndex(operator: Operator) returns (k: nat)
    ensures k < |OPERATORS| && OPERATORS[k] == operator
  {
    k := match operator
      case EQ => 0 case NEQ => 1 case LT => 2 case LTE => 3 case GT => 4 case GTE => 5 case BETWEEN => 6
      case IN => 7 case NOT_IN => 8 case CONTAINS => 9 case NOT_CONTAINS => 10 case EXISTS => 11
      case NOT_EXISTS => 12;
  }

  lemma {:induction false} FoundBelow(k: nat, n: nat)
    requires k < n <= |OPERATORS|
    ensures OperatorNamed(OperatorName(OPERATORS[k]), n) == Some(OPERATORS[k])
  {
    if k < n - 1 {
      NamesDiffer(OPERATORS[k], OPERATORS[n - 1]);
      FoundBelow(k, n - 1);
    }
  }

  lemma NamesDiffer(a: Operator, b: Operator)
    requires a != b
    ensures OperatorName(a) != OperatorName(b)
  {
    var x, y := OperatorName(a), OperatorName(b);
    if |x| == |y| {
      assert x[0] != y[0];
    }
  }

  lemma ScalarReadsBack(reader: Reader, lib: Rules.Library, fieldType: Rules.FieldType, s: Scalar)
    requires ReadsBack(reader, lib) && Rules.HasType(s, fieldType)
    ensures CoerceScalar(reader, fieldType, lib.show(s)) == Success(s)
  {
  }

  lemma ValueReadsBack(
    reader: Reader, lib: Rules.Library, fieldType: Rules.FieldType, operator: Operator, value: ConditionValue,
    text: Option<string>)
    requires ReadsBack(reader, lib) && operator in Rules.OpsByType(fieldType)
    requires ShapeFits(operator, value) && Rules.TypedValue(value, fieldType) && operator != IN && operator != NOT_IN
    requires text == match value
             case Absent => None
             case Single(s) => Some(lib.show(s))
             case Tuple(items) => Some(lib.show(items[0]) + [','] + lib.show(items[1]))
    ensures CoerceValue(reader, fieldType, operator, text) == Success(value)
  {
    match value
    case Absent =>
    case Single(s) =>
      ScalarReadsBack(reader, lib, fieldType, s);
    case Tuple(items) =>
      assert Rules.HasType(items[0], fieldType) && Rules.HasType(items[1], fieldType);
      ScalarReadsBack(reader, lib, fieldType, items[0]);
      ScalarReadsBack(reader, lib, fieldType, items[1]);
      Texts.PartitionAt(lib.show(items[0]), ',', lib.show(items[1]));
      assert items == [items[0], items[1]];
  }

  /**
  The language is complete but for membership: every typed leaf whose operator is not IN or NOT_IN,
  written as `FIELD:OPERATOR[:VALUE]`, is read back as itself.
  */
  lemma TypedLeavesCanBeWritten(reader: Reader, lib: Rules.Library, reg: Rules.Registry, c: Node)
    requires ReadsBack(reader, lib) && Rules.TypedRegistry(reg)
    requires c.Condition? && WellFormed(c) && Rules.Typed(reg, c) && ':' !in c.fieldKey
    requires c.operator != IN && c.operator != NOT_IN
    ensures ParseCondition(reader, reg, Formatted(lib, c)) == Success(c)
  {
    hide ReadsBack, CoerceValue, ParseCondition, Formatted, Rules.TypedValue, WellFormed, Texts.Partition, OperatorName;
    var text := ValueText(lib, c.value);
    TypedLeafFacts(reader, lib, reg, c);
    ValueReadsBack(reader, lib, reg[c.fieldKey].fieldType, c.operator, c.value, text);
    FormattedPieces(lib, c, text);
    PiecesAreParsed(reader, reg, Formatted(lib, c), c, text);
  }

  function ValueText(lib: Rules.Library, value: ConditionValue): Option<string> {
    match value
    case Absent => None
    case Single(s) => Some(lib.show(s))
    case Tuple(items) => if |items| == 2 then Some(lib.show(items[0]) + [','] + lib.show(items[1])) else None
  }

  lemma TypedLeafFacts(reader: Reader, lib: Rules.Library, reg: Rules.Registry, c: Node)
    requires ReadsBack(reader, lib) && Rules.TypedRegistry(reg)
    requires c.Condition? && WellFormed(c) && Rules.Typed(reg, c) && c.operator != IN && c.operator != NOT_IN
    ensures c.fieldKey in reg && c.operator in reg[c.fieldKey].allowed
    ensures c.operator in Rules.OpsByType(reg[c.fieldKey].fieldType)
    ensures ShapeFits(c.operator, c.value) && Rules.TypedValue(c.value, reg[c.fieldKey].fieldType)
    ensures OperatorNamed(reader.upper(OperatorName(c.operator))) == Some(c.operator)
    ensures MakeCondition(c.fieldKey, c.operator, c.value) == Success(c)
  {
    hide OperatorName, OperatorNamed;
    NamesAreFound(c.operator);
  }

  lemma FormattedPieces(lib: Rules.Library, c: Node, text: Option<string>)
    requires c.Condition? && ShapeFits(c.operator, c.value) && c.operator != IN && c.operator != NOT_IN
    requires ':' !in c.fieldKey
    requires text == ValueText(lib, c.value)
    ensures var rest := Texts.Partition(Formatted(lib, c), ':');
            && rest.0 == c.fieldKey && rest.1.Some?
            && Texts.Partition(rest.1.value, ':') == (OperatorName(c.operator), text)
  {
    hide OperatorName, Texts.Partition;
    NamesAreFound(c.operator);
    var name := OperatorName(c.operator);
    var tail := name + if text.Some? then [':'] + text.value else [];
    FormattedParts(lib, c, tail);
    Texts.PartitionAt(c.fieldKey, ':', tail);
    if text.Some? {
      assert tail == name + [':'] + text.value;
      Texts.PartitionAt(name, ':', text.value);
    } else {
      assert tail == name;
      Texts.PartitionNowhere(name, ':');
    }
  }

  lemma PiecesAreParsed(reader: Reader, reg: Rules.Registry, raw: string, c: Node, text: Option<string>)
    requires c.Condition? && c.fieldKey in reg && c.operator in reg[c.fieldKey].allowed
    requires Texts.Partition(raw, ':').0 == c.fieldKey && Texts.Partition(raw, ':').1.Some?
    requires Texts.Partition(Texts.Partition(raw, ':').1.value, ':') == (OperatorName(c.operator), text)
    requires OperatorNamed(reader.upper(OperatorName(c.operator))) == Some(c.operator)
    requires CoerceValue(reader, reg[c.fieldKey].fieldType, c.operator, text) == Success(c.value)
    requires MakeCondition(c.fieldKey, c.operator, c.value) == Success(c)
    ensures ParseCondition(reader, reg, raw) == Success(c)
  {
    hide Texts.Partition, OperatorName, OperatorNamed, CoerceValue, MakeCondition;
  }

  lemma FormattedParts(lib: Rules.Library, c: Node, tail: string)
    requires c.Condition? && ShapeFits(c.operator, c.value) && c.operator != IN && c.operator != NOT_IN
    requires tail == OperatorName(c.operator) + match c.value
                     case Absent => []
                     case Single(s) => [':'] + lib.show(s)
                     case Tuple(items) => [':'] + (lib.show(items[0]) + [','] + lib.show(items[1]))
    ensures Formatted(lib, c) == c.fieldKey + [':'] + tail
  {
  }
}
