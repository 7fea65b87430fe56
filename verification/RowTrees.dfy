/**
Which tree a set of rows stands for, said without rebuilding it; the rebuild finds that tree, and fails
when there is none.
*/
module RowTrees {
  import opened Wrappers
  import opened Conditions
  import opened JsonValues
  import opened ConditionRows
  import P = ConditionParser
  import Texts

  /**
  The row stands for the node: a group row for the group of what its child rows stand for, by their
  positions; any other row for the condition in its columns.
  */
  ghost predicate StandsFor(codec: Codec, rows: seq<Row>, row: Row, node: Node)
    decreases node
  {
    match node
    case Group(combinator, children) =>
      var kids := ChildrenOf(rows, Some(row.id));
      && row.nodeType == "GROUP" && row.groupOperator == Some(GroupName(combinator))
      && children != [] && |kids| == |children|
      && forall i :: 0 <= i < |children| ==> StandsFor(codec, rows, kids[i], children[i])
    case Condition(fieldKey, operator, value) =>
      && row.nodeType != "GROUP"
      && row.fieldKey == Some(fieldKey) && row.operator == Some(P.OperatorName(operator))
      && DecodeValue(codec, row.value) == Success(value)
      && Texts.Strip(fieldKey) != [] && ShapeFits(operator, value)
  }

  lemma GroupNames(name: string, combinator: GroupOperator)
    ensures GroupNamed(name) == Some(combinator) <==> name == GroupName(combinator)
    ensures GroupName(ALL) == "ALL" && GroupName(ANY) == "ANY" && GroupName(NONE) == "NONE"
  {
    assert "ALL"[0] == 'A' && "ANY"[1] == 'N' && "NONE"[0] == 'N' && "ALL"[1] == 'L' && "ANY"[0] == 'A';
  }

  lemma OperatorNames(name: string, operator: Operator)
    ensures P.OperatorNamed(name) == Some(operator) <==> name == P.OperatorName(operator)
  {
    hide P.OperatorNamed, P.OperatorName, P.OPERATORS;
    P.NamesAreFound(operator);
    if P.OperatorNamed(name).Some? {
      P.OtherWordsAreRefused(name, |P.OPERATORS|);
    }
  }

  lemma LeafIff(codec: Codec, rows: seq<Row>, row: Row, node: Node)
    requires row.nodeType != "GROUP"
    ensures Leaf(codec, row) == Success(node) <==> StandsFor(codec, rows, row, node)
  {
    hide P.OperatorNamed, P.OperatorName, DecodeValue, Texts.Strip;
    if row.operator.Some? {
      forall operator
        ensures P.OperatorNamed(row.operator.value) == Some(operator)
                <==> row.operator.value == P.OperatorName(operator)
      {
        OperatorNames(row.operator.value, operator);
      }
    }
  }

  lemma {:induction false} BuildIff(codec: Codec, rows: seq<Row>, path: seq<Row>, node: Node)
    requires UniqueIds(rows) && IsPath(rows, path)
    ensures Build(codec, rows, path) == Success(node) <==> StandsFor(codec, rows, Last(path), node)
    decreases |rows| - |path|, 1, 0
  {
    PathsAreShort(rows, path);
    var row := Last(path);
    hide UniqueIds, IsPath, ChildrenOf, BuildAll, Leaf;
    if row.nodeType != "GROUP" {
      LeafIff(codec, rows, row, node);
    } else if row.groupOperator.Some? {
      var kids := ChildrenOf(rows, Some(row.id));
      if node.Group? {
        GroupNames(row.groupOperator.value, node.combinator);
        BuildAllIff(codec, rows, path, kids, node.children);
      }
    }
  }

  lemma {:induction false} BuildAllIff(codec: Codec, rows: seq<Row>, path: seq<Row>, kids: seq<Row>, nodes: seq<Node>)
    requires UniqueIds(rows) && IsPath(rows, path)
    requires forall kid :: kid in kids ==> kid in ChildrenOf(rows, Some(Last(path).id))
    ensures BuildAll(codec, rows, path, kids) == Success(nodes)
            <==> StandForAll(codec, rows, kids, nodes)
    decreases |rows| - |path|, 0, |kids|
  {
    hide UniqueIds, IsPath, ChildrenOf, Build, StandsFor;
    PathsAreShort(rows, path);
    if kids == [] {
    } else {
      PathGrows(rows, path, kids[0]);
      PathsAreShort(rows, path + [kids[0]]);
      if nodes != [] {
        BuildIff(codec, rows, path + [kids[0]], nodes[0]);
        BuildAllIff(codec, rows, path, kids[1..], nodes[1..]);
        assert nodes == [nodes[0]] + nodes[1..];
        FirstAndRest(codec, rows, kids, nodes);
      }
    }
  }

  /** The rows stand for the nodes, one by one. */
  ghost predicate StandForAll(codec: Codec, rows: seq<Row>, kids: seq<Row>, nodes: seq<Node>) {
    |kids| == |nodes| && forall i :: 0 <= i < |nodes| ==> StandsFor(codec, rows, kids[i], nodes[i])
  }

  lemma FirstAndRest(codec: Codec, rows: seq<Row>, kids: seq<Row>, nodes: seq<Node>)
    requires kids != [] && nodes != []
    ensures StandForAll(codec, rows, kids, nodes)
            <==> StandsFor(codec, rows, kids[0], nodes[0]) && StandForAll(codec, rows, kids[1..], nodes[1..])
  {
    hide StandsFor;
    if StandsFor(codec, rows, kids[0], nodes[0]) && StandForAll(codec, rows, kids[1..], nodes[1..]) {
      forall i | 0 <= i < |nodes|
        ensures StandsFor(codec, rows, kids[i], nodes[i])
      {
        assert i > 0 ==> StandsFor(codec, rows, kids[1..][i - 1], nodes[1..][i - 1]);
      }
    }
  }

  /**
  The rebuild succeeds with a tree if and only if exactly one row has no parent, it is a group's, and it
  stands for the tree: on every row set, whatever dangles or goes round in it.
  */
  lemma RebuiltIff(codec: Codec, rows: seq<Row>, tree: Node)
    requires UniqueIds(rows)
    ensures Rebuilt(codec, rows) == Success(tree)
            <==> exists root :: && ChildrenOf(rows, None) == [root] && tree.Group?
                                && StandsFor(codec, rows, root, tree)
  {
    hide UniqueIds, ChildrenOf, Build, StandsFor;
    var roots := ChildrenOf(rows, None);
    if |roots| == 1 {
      RootIsPath(rows, roots[0]);
      BuildIff(codec, rows, [roots[0]], tree);
      assert roots == [roots[0]];
    }
  }

  // ----- The order of children

  function IfAt(row: Row, position: int): seq<Row> {
    if row.position == position then [row] else []
  }

  function AtPosition(rows: seq<Row>, position: int): seq<Row> {
    if rows == [] then [] else IfAt(rows[0], position) + AtPosition(rows[1..], position)
  }

  lemma {:induction false} AtPositionConcat(a: seq<Row>, b: seq<Row>, position: int)
    ensures AtPosition(a + b, position) == AtPosition(a, position) + AtPosition(b, position)
  {
    hide IfAt;
    if a == [] {
      assert a + b == b;
    } else {
      assert (a + b)[1..] == a[1..] + b;
      AtPositionConcat(a[1..], b, position);
    }
  }

  lemma OneRowAt(row: Row, position: int)
    ensures AtPosition([row], position) == IfAt(row, position)
    ensures AtPosition([], position) == []
  {
    assert [row][1..] == [] && IfAt(row, position) + [] == IfAt(row, position);
  }

  lemma {:induction false} NoneAbove(sorted: seq<Row>, position: int)
    requires Ascending(sorted) && (sorted != [] ==> position < sorted[0].position)
    ensures AtPosition(sorted, position) == []
  {
    if sorted == [] {
    } else {
      NoneAbove(sorted[1..], position);
    }
  }

  lemma {:induction false} InsertedBehindEquals(sorted: seq<Row>, row: Row, position: int)
    requires Ascending(sorted)
    ensures AtPosition(Inserted(sorted, row), position) == AtPosition(sorted, position) + IfAt(row, position)
  {
    if sorted == [] || row.position < sorted[0].position {
      AtPositionConcat([row], sorted, position);
      OneRowAt(row, position);
      if row.position == position {
        NoneAbove(sorted, position);
      }
      hide AtPosition;
    } else {
      hide IfAt;
      InsertedBehindEquals(sorted[1..], row, position);
    }
  }

  /** The sort is stable: rows at one position stay in the order in which the database returns them. */
  lemma {:induction false} SortIsStable(rows: seq<Row>, position: int)
    ensures AtPosition(SortedByPosition(rows), position) == AtPosition(rows, position)
  {
    hide AtPosition, IfAt, Inserted;
    if rows == [] {
    } else {
      var n := |rows| - 1;
      SortIsStable(rows[..n], position);
      SortedAscends(rows[..n]);
      InsertedBehindEquals(SortedByPosition(rows[..n]), rows[n], position);
      assert rows == rows[..n] + [rows[n]];
      AtPositionConcat(rows[..n], [rows[n]], position);
      OneRowAt(rows[n], position);
    }
  }

  // ----- Stored values

  /** What a stored scalar is read as, by its tag: whatever is no bool, int or Decimal is a text. */
  lemma ScalarsByTag(codec: Codec, tag: Json, raw: Json)
    ensures var read := DecodeScalar(codec, JObject(map["t" := tag, "v" := raw]));
            && (tag == JStr("bool") ==> read == Success(Bool(codec.asBool(raw))))
            && (tag == JStr("int") && codec.asInt(raw).Some? ==> read == Success(Int(codec.asInt(raw).value)))
            && (tag == JStr("dec") && codec.asDecimal(raw).Some? ==> read == Success(Dec(codec.asDecimal(raw).value)))
            && (tag == JStr("int") && codec.asInt(raw).None? ==> read.Failure?)
            && (tag == JStr("dec") && codec.asDecimal(raw).None? ==> read.Failure?)
            && (tag !in {JStr("bool"), JStr("int"), JStr("dec")} ==> read == Success(Str(codec.asText(raw))))
  {
    assert "bool"[0] == 'b' && "int"[0] == 'i' && "dec"[0] == 'd';
  }

  /** A stored tuple is read item by item. */
  lemma {:induction false} TuplesByKey(codec: Codec, items: seq<Json>)
    ensures (forall i :: 0 <= i < |items| ==> DecodeScalar(codec, items[i]).Success?)
            <==> DecodeValue(codec, Some(JObject(map["tuple" := JArray(items)]))).Success?
    ensures DecodeValue(codec, Some(JObject(map["tuple" := JArray(items)]))).Success? ==>
              var read := DecodeValue(codec, Some(JObject(map["tuple" := JArray(items)]))).value;
              && read.Tuple? && |read.items| == |items|
              && forall i :: 0 <= i < |items| ==> DecodeScalar(codec, items[i]) == Success(read.items[i])
  {
    hide DecodeScalar;
    DecodedItems(codec, items);
  }

  lemma {:induction false} DecodedItems(codec: Codec, items: seq<Json>)
    ensures (forall i :: 0 <= i < |items| ==> DecodeScalar(codec, items[i]).Success?)
            <==> DecodeAll(codec, items).Success?
    ensures DecodeAll(codec, items).Success? ==>
              forall i :: 0 <= i < |items| ==>
                DecodeScalar(codec, items[i]) == Success(DecodeAll(codec, items).value[i])
  {
    hide DecodeScalar;
    if items == [] {
    } else {
      DecodedItems(codec, items[1..]);
      assert forall i :: 0 < i < |items| ==> items[i] == items[1..][i - 1];
    }
  }

  // ----- How many rows of which kind

  function OfType(rows: seq<Row>, nodeType: string): nat {
    if rows == [] then 0
    else OfType(rows[..|rows| - 1], nodeType) + if rows[|rows| - 1].nodeType == nodeType then 1 else 0
  }

  lemma NothingOfType()
    ensures forall nodeType :: OfType([], nodeType) == 0
  {
  }

  lemma {:induction false} OfTypeConcat(a: seq<Row>, b: seq<Row>, nodeType: string)
    ensures OfType(a + b, nodeType) == OfType(a, nodeType) + OfType(b, nodeType)
  {
    if b == [] {
      assert a + b == a;
    } else {
      OfTypeConcat(a, b[..|b| - 1], nodeType);
      assert (a + b)[..|a + b| - 1] == a + b[..|b| - 1];
    }
  }

  lemma HeadsType(codec: Codec, node: Node, parent: Option<Uuid>, position: int, id: Uuid)
    ensures OfType([Head(codec, node, parent, position, id)], "CONDITION") == if node.Group? then 0 else 1
    ensures OfType([Head(codec, node, parent, position, id)], "GROUP") == if node.Group? then 1 else 0
  {
    hide EncodeValue, P.OperatorName;
    assert [Head(codec, node, parent, position, id)][..0] == [] && "CONDITION"[0] == 'C' && "GROUP"[0] == 'G';
  }

  /** A tree is stored as one CONDITION row per leaf, and all its other rows are GROUP rows. */
  lemma {:induction false} ConditionRowsAreLeaves(
    codec: Codec, node: Node, parent: Option<Uuid>, position: int, next: nat)
    ensures OfType(Rows(codec, node, parent, position, next), "CONDITION") == Leaves(node)
    ensures OfType(Rows(codec, node, parent, position, next), "GROUP") == Size(node) - Leaves(node)
    decreases node
  {
    var head := [Head(codec, node, parent, position, next)];
    HeadsType(codec, node, parent, position, next);
    hide OfType, Head;
    if node.Group? {
      ConditionRowsAreLeavesOf(codec, node.children, next, next + 1);
      OfTypeConcat(head, ChildRows(codec, node.children, next, next + 1), "CONDITION");
      OfTypeConcat(head, ChildRows(codec, node.children, next, next + 1), "GROUP");
    } else {
      assert head + [] == head;
    }
  }

  lemma {:induction false} ConditionRowsAreLeavesOf(codec: Codec, nodes: seq<Node>, parent: Uuid, next: nat)
    ensures OfType(ChildRows(codec, nodes, parent, next), "CONDITION") == LeavesOf(nodes)
    ensures OfType(ChildRows(codec, nodes, parent, next), "GROUP") == SizeOf(nodes) - LeavesOf(nodes)
    decreases nodes
  {
    NothingOfType();
    hide OfType;
    if nodes == [] {
    } else {
      var n := |nodes| - 1;
      ConditionRowsAreLeavesOf(codec, nodes[..n], parent, next);
      var last := Rows(codec, nodes[n], Some(parent), n, next + SizeOf(nodes[..n]));
      ConditionRowsAreLeaves(codec, nodes[n], Some(parent), n, next + SizeOf(nodes[..n]));
      OfTypeConcat(ChildRows(codec, nodes[..n], parent, next), last, "CONDITION");
      OfTypeConcat(ChildRows(codec, nodes[..n], parent, next), last, "GROUP");
    }
  }
}
