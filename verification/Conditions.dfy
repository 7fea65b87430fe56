/** The alert condition tree and the checks of its constructors. */
module Conditions {
  import opened Wrappers
  import opened Decimals
  import Texts

  datatype Scalar = Str(s: string) | Int(i: int) | Dec(d: Decimal) | Bool(b: bool)

  /** None, one scalar, or a tuple of scalars. */
  datatype ConditionValue = Absent | Single(scalar: Scalar) | Tuple(items: seq<Scalar>)

  datatype Operator =
    EQ | NEQ | LT | LTE | GT | GTE | BETWEEN | IN | NOT_IN | CONTAINS | NOT_CONTAINS | EXISTS | NOT_EXISTS

  datatype GroupOperator = ALL | ANY | NONE

  datatype Node =
    | Condition(fieldKey: string, operator: Operator, value: ConditionValue)
    | Group(combinator: GroupOperator, children: seq<Node>)

  datatype Error =
    | InvalidCondition          // InvalidConditionError
    | ValueError
    | TypeError
    | AssertionError

  const NULLARY: set<Operator> := {EXISTS, NOT_EXISTS}

  /** The shape that an operator demands of its value. */
  predicate ShapeFits(operator: Operator, value: ConditionValue) {
    if operator in NULLARY then value.Absent?
    else if operator == BETWEEN then value.Tuple? && |value.items| == 2
    else if operator == IN || operator == NOT_IN then value.Tuple? && |value.items| >= 1
    else value.Single?
  }

  function MakeCondition(fieldKey: string, operator: Operator, value: ConditionValue): (made: Result<Node, Error>)
    ensures made.Success? ==> WellFormed(made.value)
    ensures made.Success? ==> made.value == Condition(fieldKey, operator, value)
    ensures made.Success? <==>
              && Texts.Strip(fieldKey) != []
              && match value
                 case Absent => operator.EXISTS? || operator.NOT_EXISTS?
                 case Tuple(items) =>
                   (operator.BETWEEN? && |items| == 2) || ((operator.IN? || operator.NOT_IN?) && items != [])
                 case Single(_) => operator !in {EXISTS, NOT_EXISTS, BETWEEN, IN, NOT_IN}
  {
    if Texts.Strip(fieldKey) == [] then Failure(ValueError)
    else if operator in NULLARY then
      if !value.Absent? then Failure(ValueError) else Success(Condition(fieldKey, operator, value))
    else if operator == BETWEEN then
      if !(value.Tuple? && |value.items| == 2) then Failure(ValueError)
      else Success(Condition(fieldKey, operator, value))
    else if operator in {IN, NOT_IN} then
      if !(value.Tuple? && |value.items| >= 1) then Failure(ValueError)
      else Success(Condition(fieldKey, operator, value))
    else if value.Absent? || value.Tuple? then Failure(ValueError)
    else Success(Condition(fieldKey, operator, value))
  }

  function MakeGroup(combinator: GroupOperator, children: seq<Node>): (made: Result<Node, Error>)
    ensures made.Success? <==> children != []
    ensures made.Success? && (forall c :: c in children ==> WellFormed(c)) ==> WellFormed(made.value)
  {
    if |children| == 0 then Failure(ValueError) else Success(Group(combinator, children))
  }

  /** What both constructors together let through. */
  predicate WellFormed(node: Node) {
    match node
    case Condition(fieldKey, operator, value) => Texts.Strip(fieldKey) != [] && ShapeFits(operator, value)
    case Group(_, children) => children != [] && forall c :: c in children ==> WellFormed(c)
  }

  function Leaves(node: Node): nat {
    match node
    case Condition(_, _, _) => 1
    case Group(_, children) => LeavesOf(children)
  }

  function LeavesOf(nodes: seq<Node>): nat {
    if nodes == [] then 0 else LeavesOf(nodes[..|nodes| - 1]) + Leaves(nodes[|nodes| - 1])
  }

  /** `RuleGroup.leaf_count`. */
  method LeafCount(node: Node) returns (total: nat)
    requires node.Group?
    ensures total == Leaves(node)
    decreases node
  {
    total := 0;
    for i := 0 to |node.children|
      invariant total == LeavesOf(node.children[..i])
    {
      var child := node.children[i];
      var leaves := 1;
      if child.Group? {
        leaves := LeafCount(child);
      }
      total := total + leaves;
      assert node.children[..i + 1][..i] == node.children[..i];
    }
    assert node.children[..|node.children|] == node.children;
  }

  /**
  The check "alert must have at least one condition" can never fire: a tree that its constructors let
  through always has a leaf.
  */
  lemma {:induction false} WellFormedTreesHaveLeaves(node: Node)
    requires WellFormed(node)
    ensures 1 <= Leaves(node)
  {
    if node.Group? {
      var n := |node.children| - 1;
      assert node.children[n] in node.children;
      WellFormedTreesHaveLeaves(node.children[n]);
    }
  }

  /** A condition is one leaf, and a group has the leaves of its children, however they are split up. */
  lemma {:induction false} LeavesAdd(a: seq<Node>, b: seq<Node>)
    ensures LeavesOf(a + b) == LeavesOf(a) + LeavesOf(b)
    ensures forall c: Node :: c.Condition? ==> LeavesOf([c]) == 1
    ensures forall combinator :: Leaves(Group(combinator, a)) == LeavesOf(a)
  {
    assert forall c: Node :: [c][..0] == [];
    if b == [] {
      assert a + b == a;
    } else {
      LeavesAdd(a, b[..|b| - 1]);
      assert (a + b)[..|a + b| - 1] == a + b[..|b| - 1];
    }
  }
}
