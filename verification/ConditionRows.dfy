/**
Persistence of an alert's condition tree: the tree as rows with parent links, and the rows, in whatever
order the database returns them, as a tree again.
*/
module ConditionRows {
  import opened Wrappers
  import opened Decimals
  import opened Conditions
  import opened JsonValues
  import P = ConditionParser

  type Uuid = nat

  /** Python's conversions of a JSON value, and `str` of a Decimal. */
  datatype Codec = Codec(
    asBool: Json -> bool, asInt: Json -> Option<int>, asText: Json -> string,
    asDecimal: Json -> Option<Decimal>, showDecimal: Decimal -> string)

  ghost predicate Faithful(codec: Codec) {
    && (forall b :: codec.asBool(JBool(b)) == b)
    && (forall i :: codec.asInt(JInt(i)) == Some(i))
    && (forall s :: codec.asText(JStr(s)) == s)
    && (forall d :: codec.asDecimal(JStr(codec.showDecimal(d))) == Some(d))
  }

  // ----- The value codec

  function EncodeScalar(codec: Codec, s: Scalar): Json {
    match s
    case Bool(b) => JObject(map["t" := JStr("bool"), "v" := JBool(b)])
    case Int(i) => JObject(map["t" := JStr("int"), "v" := JInt(i)])
    case Dec(d) => JObject(map["t" := JStr("dec"), "v" := JStr(codec.showDecimal(d))])
    case Str(t) => JObject(map["t" := JStr("str"), "v" := JStr(t)])
  }

  function DecodeScalar(codec: Codec, data: Json): Result<Scalar, Error> {
    if !(data.JObject? && "t" in data.fields && "v" in data.fields) then Failure(TypeError)
    else
      var kind, raw := data.fields["t"], data.fields["v"];
      if kind == JStr("bool") then Success(Bool(codec.asBool(raw)))
      else if kind == JStr("int") then
        (match codec.asInt(raw) case Some(i) => Success(Int(i)) case None => Failure(ValueError))
      else if kind == JStr("dec") then
        (match codec.asDecimal(raw) case Some(d) => Success(Dec(d)) case None => Failure(ValueError))
      else Success(Str(codec.asText(raw)))
  }

  function EncodeValue(codec: Codec, value: ConditionValue): Option<Json> {
    match value
    case Absent => None
    case Tuple(items) =>
      Some(JObject(map["tuple" := JArray(seq(|items|, i requires 0 <= i < |items| => EncodeScalar(codec, items[i])))]))
    case Single(s) => Some(EncodeScalar(codec, s))
  }

  function DecodeAll(codec: Codec, items: seq<Json>): (r: Result<seq<Scalar>, Error>)
    ensures r.Success? ==> |r.value| == |items|
  {
    if items == [] then Success([])
    else
      var first :- DecodeScalar(codec, items[0]);
      var rest :- DecodeAll(codec, items[1..]);
      Success([first] + rest)
  }

  function DecodeValue(codec: Codec, data: Option<Json>): Result<ConditionValue, Error> {
    if data.None? then Success(Absent)
    else if data.value.JObject? && "tuple" in data.value.fields then
      if !data.value.fields["tuple"].JArray? then Failure(TypeError)
      else
        var items :- DecodeAll(codec, data.value.fields["tuple"].items);
        Success(Tuple(items))
    else
      var s :- DecodeScalar(codec, data.value);
      Success(Single(s))
  }

  lemma ScalarRoundTrip(codec: Codec, s: Scalar)
    requires Faithful(codec)
    ensures DecodeScalar(codec, EncodeScalar(codec, s)) == Success(s)
  {
  }

  lemma {:induction false} TupleRoundTrip(codec: Codec, items: seq<Scalar>, encoded: seq<Json>)
    requires Faithful(codec) && |encoded| == |items|
    requires forall i :: 0 <= i < |items| ==> encoded[i] == EncodeScalar(codec, items[i])
    ensures DecodeAll(codec, encoded) == Success(items)
  {
    if items == [] {
    } else {
      ScalarRoundTrip(codec, items[0]);
      TupleRoundTrip(codec, items[1..], encoded[1..]);
      assert items == [items[0]] + items[1..];
    }
  }

  /** Types survive JSON: a bool stays a bool, an int an int, a Decimal a Decimal, a text a text. */
  lemma ValueRoundTrip(codec: Codec, value: ConditionValue)
    requires Faithful(codec)
    ensures DecodeValue(codec, EncodeValue(codec, value)) == Success(value)
  {
    match value
    case Absent =>
    case Single(s) =>
      ScalarRoundTrip(codec, s);
    case Tuple(items) =>
      var encoded := seq(|items|, i requires 0 <= i < |items| => EncodeScalar(codec, items[i]));
      TupleRoundTrip(codec, items, encoded);
  }

  // ----- Tree to rows

  datatype Row = Row(
    id: Uuid, parent: Option<Uuid>, position: int, nodeType: string, groupOperator: Option<string>,
    fieldKey: Option<string>, operator: Option<string>, value: Option<Json>)

  function GroupName(combinator: GroupOperator): string {
    match combinator case ALL => "ALL" case ANY => "ANY" case NONE => "NONE"
  }

  function GroupNamed(name: string): Option<GroupOperator> {
    if name == "ALL" then Some(ALL)
    else if name == "ANY" then Some(ANY)
    else if name == "NONE" then Some(NONE)
    else None
  }

  function Head(codec: Codec, node: Node, parent: Option<Uuid>, position: int, id: Uuid): Row {
    match node
    case Group(combinator, _) => Row(id, parent, position, "GROUP", Some(GroupName(combinator)), None, None, None)
    case Condition(fieldKey, operator, value) =>
      Row(id, parent, position, "CONDITION", None, Some(fieldKey), Some(P.OperatorName(operator)),
          EncodeValue(codec, value))
  }

  function Size(node: Node): (n: nat)
    ensures 1 <= n
  {
    match node
    case Condition(_, _, _) => 1
    case Group(_, children) => 1 + SizeOf(children)
  }

  function SizeOf(nodes: seq<Node>): nat {
    if nodes == [] then 0 else SizeOf(nodes[..|nodes| - 1]) + Size(nodes[|nodes| - 1])
  }

  /** The rows of a subtree, numbered from `next` on in the order in which they are made. */
  function Rows(codec: Codec, node: Node, parent: Option<Uuid>, position: int, next: nat): (rows: seq<Row>)
    ensures |rows| == Size(node)
    decreases node
  {
    [Head(codec, node, parent, position, next)]
    + if node.Group? then ChildRows(codec, node.children, next, next + 1) else []
  }

  function ChildRows(codec: Codec, nodes: seq<Node>, parent: Uuid, next: nat): (rows: seq<Row>)
    ensures |rows| == SizeOf(nodes)
    decreases nodes
  {
    if nodes == [] then []
    else
      var n := |nodes| - 1;
      ChildRows(codec, nodes[..n], parent, next)
      + Rows(codec, nodes[n], Some(parent), n, next + SizeOf(nodes[..n]))
  }

  lemma NoChildren(codec: Codec, parent: Uuid, next: nat)
    ensures SizeOf([]) == 0 && ChildRows(codec, [], parent, next) == []
  {
  }

  lemma OneMoreChild(codec: Codec, nodes: seq<Node>, k: nat, parent: Uuid, next: nat)
    requires k < |nodes|
    ensures SizeOf(nodes[..k + 1]) == SizeOf(nodes[..k]) + Size(nodes[k])
    ensures ChildRows(codec, nodes[..k + 1], parent, next)
            == ChildRows(codec, nodes[..k], parent, next)
               + Rows(codec, nodes[k], Some(parent), k, next + SizeOf(nodes[..k]))
  {
    assert nodes[..k + 1][..k] == nodes[..k];
  }

  // ----- Rows to tree

  function WithParent(rows: seq<Row>, parent: Option<Uuid>): seq<Row> {
    if rows == [] then []
    else
      var n := |rows| - 1;
      WithParent(rows[..n], parent) + if rows[n].parent == parent then [rows[n]] else []
  }

  /** Inserting after every row of the same position: `list.sort` is stable. */
  function Inserted(sorted: seq<Row>, row: Row): seq<Row> {
    if sorted == [] || row.position < sorted[0].position then [row] + sorted
    else [sorted[0]] + Inserted(sorted[1..], row)
  }

  function SortedByPosition(rows: seq<Row>): seq<Row> {
    if rows == [] then [] else Inserted(SortedByPosition(rows[..|rows| - 1]), rows[|rows| - 1])
  }

  function ChildrenOf(rows: seq<Row>, parent: Option<Uuid>): seq<Row> {
    SortedByPosition(WithParent(rows, parent))
  }

  ghost predicate UniqueIds(rows: seq<Row>) {
    forall i, j :: 0 <= i < j < |rows| ==> rows[i].id != rows[j].id
  }

  /** A chain of rows from one without a parent down to the last, each the parent of the next. */
  ghost predicate IsPath(rows: seq<Row>, path: seq<Row>) {
    && path != [] && path[0].parent == None
    && (forall i :: 0 <= i < |path| ==> path[i] in rows)
    && (forall i :: 0 < i < |path| ==> path[i].parent == Some(path[i - 1].id))
  }

  function Last(path: seq<Row>): Row
    requires path != []
  {
    path[|path| - 1]
  }

  lemma SameIdSameRow(rows: seq<Row>, a: Row, b: Row)
    requires UniqueIds(rows) && a in rows && b in rows && a.id == b.id
    ensures a == b
  {
  }

  lemma OnlyRootsStandAlone(rows: seq<Row>, path: seq<Row>)
    requires IsPath(rows, path)
    ensures |path| == 1 <==> Last(path).parent == None
  {
    if |path| > 1 {
      assert path[|path| - 1].parent == Some(path[|path| - 1 - 1].id);
    }
  }

  /** There is only one chain from a root to a given row. */
  lemma {:induction false} PathsAreUnique(rows: seq<Row>, p: seq<Row>, q: seq<Row>)
    requires UniqueIds(rows) && IsPath(rows, p) && IsPath(rows, q) && Last(p) == Last(q)
    ensures p == q
    decreases |p|
  {
    OnlyRootsStandAlone(rows, p);
    OnlyRootsStandAlone(rows, q);
    if |p| > 1 {
      var m, n := |p| - 1, |q| - 1;
      SameIdSameRow(rows, p[m - 1], q[n - 1]);
      PathsAreUnique(rows, p[..m], q[..n]);
      assert p == p[..m] + [p[m]] && q == q[..n] + [q[n]];
    } else {
      assert p == [p[0]] && q == [q[0]];
    }
  }

  lemma PathRowsDiffer(rows: seq<Row>, path: seq<Row>, i: nat, j: nat)
    requires UniqueIds(rows) && IsPath(rows, path) && i < j < |path|
    ensures path[i] != path[j]
  {
    if path[i] == path[j] {
      PathsAreUnique(rows, path[..i + 1], path[..j + 1]);
    }
  }

  lemma {:induction false} DistinctRowsFit(path: seq<Row>, pool: set<Row>)
    requires forall i :: 0 <= i < |path| ==> path[i] in pool
    requires forall i, j :: 0 <= i < j < |path| ==> path[i] != path[j]
    ensures |path| <= |pool|
    decreases |path|
  {
    if path == [] {
    } else {
      var n := |path| - 1;
      DistinctRowsFit(path[..n], pool - {path[n]});
    }
  }

  lemma {:induction false} SetOfSeqIsSmall(rows: seq<Row>)
    ensures |set r | r in rows| <= |rows|
  {
    if rows == [] {
      assert (set r | r in rows) == {};
    } else {
      var n := |rows| - 1;
      SetOfSeqIsSmall(rows[..n]);
      assert (set r | r in rows) == (set r | r in rows[..n]) + {rows[n]};
    }
  }

  /** A row on a cycle is never reached: a chain from a root repeats no row, so it is never longer than the table. */
  lemma PathsAreShort(rows: seq<Row>, path: seq<Row>)
    requires UniqueIds(rows) && IsPath(rows, path)
    ensures |path| <= |rows|
  {
    forall i, j | 0 <= i < j < |path| ensures path[i] != path[j] {
      PathRowsDiffer(rows, path, i, j);
    }
    DistinctRowsFit(path, set r | r in rows);
    SetOfSeqIsSmall(rows);
  }

  lemma {:induction false} WithParentMembers(rows: seq<Row>, parent: Option<Uuid>)
    ensures forall r :: r in WithParent(rows, parent) <==> r in rows && r.parent == parent
  {
    if rows == [] {
    } else {
      var n := |rows| - 1;
      WithParentMembers(rows[..n], parent);
      assert forall r :: r in rows <==> r in rows[..n] || r == rows[n];
    }
  }

  lemma {:induction false} InsertedMembers(sorted: seq<Row>, row: Row)
    ensures multiset(Inserted(sorted, row)) == multiset(sorted) + multiset{row}
  {
    if !(sorted == [] || row.position < sorted[0].position) {
      InsertedMembers(sorted[1..], row);
      assert sorted == [sorted[0]] + sorted[1..];
    }
  }

  lemma {:induction false} SortedMembers(rows: seq<Row>)
    ensures multiset(SortedByPosition(rows)) == multiset(rows)
  {
    if rows == [] {
    } else {
      var n := |rows| - 1;
      SortedMembers(rows[..n]);
      InsertedMembers(SortedByPosition(rows[..n]), rows[n]);
      assert rows == rows[..n] + [rows[n]];
    }
  }

  lemma ChildrenMembers(rows: seq<Row>, parent: Option<Uuid>)
    ensures forall r :: r in ChildrenOf(rows, parent) <==> r in rows && r.parent == parent
  {
    WithParentMembers(rows, parent);
    var found := WithParent(rows, parent);
    SortedMembers(found);
    forall r
      ensures r in SortedByPosition(found) <==> r in found
    {
      assert r in SortedByPosition(found) <==> r in multiset(SortedByPosition(found));
      assert r in found <==> r in multiset(found);
    }
  }

  lemma PathGrows(rows: seq<Row>, path: seq<Row>, kid: Row)
    requires IsPath(rows, path) && kid in ChildrenOf(rows, Some(Last(path).id))
    ensures IsPath(rows, path + [kid]) && Last(path + [kid]) == kid
  {
    ChildrenMembers(rows, Some(Last(path).id));
  }

  /**
  The recursive `build`, at the row that `path` ends in.  Its termination is the point: whatever the
  parent pointers are, the chain from the root cannot outgrow the table.
  */
  function Build(codec: Codec, rows: seq<Row>, path: seq<Row>): Result<Node, Error>
    requires UniqueIds(rows) && IsPath(rows, path)
    decreases |rows| - |path|, 1, 0
  {
    PathsAreShort(rows, path);
    var row := Last(path);
    if row.nodeType == "GROUP" then
      if row.groupOperator.None? then Failure(AssertionError)
      else Grouped(row, BuildAll(codec, rows, path, ChildrenOf(rows, Some(row.id))))
    else Leaf(codec, row)
  }

  /** The group of a row whose children have been built. */
  function Grouped(row: Row, built: Result<seq<Node>, Error>): Result<Node, Error>
    requires row.groupOperator.Some?
  {
    var children :- built;
    var combinator := GroupNamed(row.groupOperator.value);
    if combinator.None? then Failure(ValueError) else MakeGroup(combinator.value, children)
  }

  /** The condition of a row. */
  function Leaf(codec: Codec, row: Row): Result<Node, Error> {
    if row.fieldKey.None? || row.operator.None? then Failure(AssertionError)
    else
      var operator := P.OperatorNamed(row.operator.value);
      if operator.None? then Failure(ValueError)
      else
        var value :- DecodeValue(codec, row.value);
        MakeCondition(row.fieldKey.value, operator.value, value)
  }

  function BuildAll(codec: Codec, rows: seq<Row>, path: seq<Row>, kids: seq<Row>): (r: Result<seq<Node>, Error>)
    requires UniqueIds(rows) && IsPath(rows, path)
    requires forall kid :: kid in kids ==> kid in ChildrenOf(rows, Some(Last(path).id))
    ensures r.Success? ==> |r.value| == |kids|
    decreases |rows| - |path|, 0, |kids|
  {
    PathsAreShort(rows, path);
    if kids == [] then Success([])
    else
      PathGrows(rows, path, kids[0]);
      PathsAreShort(rows, path + [kids[0]]);
      var first :- Build(codec, rows, path + [kids[0]]);
      var rest :- BuildAll(codec, rows, path, kids[1..]);
      Success([first] + rest)
  }

  lemma RootIsPath(rows: seq<Row>, root: Row)
    requires root in ChildrenOf(rows, None)
    ensures IsPath(rows, [root])
  {
    ChildrenMembers(rows, None);
  }

  function Rebuilt(codec: Codec, rows: seq<Row>): (tree: Result<Node, Error>)
    requires UniqueIds(rows)
  {
    var roots := ChildrenOf(rows, None);
    if |roots| != 1 then Failure(ValueError)
    else
      RootIsPath(rows, roots[0]);
      var root :- Build(codec, rows, [roots[0]]);
      if root.Group? then Success(root) else Failure(ValueError)
  }

  method RebuildTree(codec: Codec, rows: seq<Row>) returns (tree: Result<Node, Error>)
    requires UniqueIds(rows)
    ensures tree == Rebuilt(codec, rows)
  {
    var byParent: map<Option<Uuid>, seq<Row>> := map[];
    for i := 0 to |rows|
      invariant forall key :: key in byParent ==> byParent[key] == WithParent(rows[..i], key)
      invariant forall key :: key !in byParent ==> WithParent(rows[..i], key) == []
    {
      var key := rows[i].parent;
      var listed := if key in byParent then byParent[key] else [];
      byParent := byParent[key := listed + [rows[i]]];
      assert rows[..i + 1][..i] == rows[..i];
    }
    assert rows[..|rows|] == rows;
    byParent := map key | key in byParent :: SortedByPosition(byParent[key]);
    var roots := if None in byParent then byParent[None] else [];
    assert roots == ChildrenOf(rows, None);
    if |roots| != 1 {
      return Failure(ValueError);
    }
    RootIsPath(rows, roots[0]);
    var root := Build(codec, rows, [roots[0]]);
    if root.Failure? {
      return Failure(root.error);
    }
    tree := if root.value.Group? then Success(root.value) else Failure(ValueError);
  }

  // ----- At most one visit

  /** A result, and the rows visited on the way to it. */
  datatype Traced<+T> = Traced(result: Result<T, Error>, visited: seq<Row>)

  /** `Build` with its trace: a row that makes the build fail is the last one visited. */
  function Traversed(codec: Codec, rows: seq<Row>, path: seq<Row>): Traced<Node>
    requires UniqueIds(rows) && IsPath(rows, path)
    decreases |rows| - |path|, 1, 0
  {
    PathsAreShort(rows, path);
    var row := Last(path);
    if row.nodeType == "GROUP" then
      if row.groupOperator.None? then Traced(Failure(AssertionError), [row])
      else
        var children := TraversedAll(codec, rows, path, ChildrenOf(rows, Some(row.id)));
        Traced(Grouped(row, children.result), [row] + children.visited)
    else Traced(Leaf(codec, row), [row])
  }

  function TraversedAll(codec: Codec, rows: seq<Row>, path: seq<Row>, kids: seq<Row>): Traced<seq<Node>>
    requires UniqueIds(rows) && IsPath(rows, path)
    requires forall kid :: kid in kids ==> kid in ChildrenOf(rows, Some(Last(path).id))
    decreases |rows| - |path|, 0, |kids|
  {
    PathsAreShort(rows, path);
    if kids == [] then Traced(Success([]), [])
    else
      PathGrows(rows, path, kids[0]);
      PathsAreShort(rows, path + [kids[0]]);
      var first := Traversed(codec, rows, path + [kids[0]]);
      if first.result.Failure? then Traced(Failure(first.result.error), first.visited)
      else
        var rest := TraversedAll(codec, rows, path, kids[1..]);
        Traced(if rest.result.Failure? then rest.result else Success([first.result.value] + rest.result.value),
               first.visited + rest.visited)
  }

  function TraversedTable(codec: Codec, rows: seq<Row>): Traced<Node>
    requires UniqueIds(rows)
  {
    var roots := ChildrenOf(rows, None);
    if |roots| != 1 then Traced(Failure(ValueError), [])
    else
      RootIsPath(rows, roots[0]);
      var root := Traversed(codec, rows, [roots[0]]);
      var tree := if root.result.Failure? || root.result.value.Group? then root.result else Failure(ValueError);
      Traced(tree, root.visited)
  }

  /** Tracing changes no result. */
  lemma {:induction false} TracingKeepsResults(codec: Codec, rows: seq<Row>, path: seq<Row>)
    requires UniqueIds(rows) && IsPath(rows, path)
    ensures Traversed(codec, rows, path).result == Build(codec, rows, path)
    decreases |rows| - |path|, 1, 0
  {
    hide UniqueIds, ChildrenOf, Leaf, Grouped;
    PathsAreShort(rows, path);
    if Last(path).nodeType == "GROUP" {
      TracingKeepsLists(codec, rows, path, ChildrenOf(rows, Some(Last(path).id)));
    }
  }

  lemma {:induction false} TracingKeepsLists(codec: Codec, rows: seq<Row>, path: seq<Row>, kids: seq<Row>)
    requires UniqueIds(rows) && IsPath(rows, path)
    requires forall kid :: kid in kids ==> kid in ChildrenOf(rows, Some(Last(path).id))
    ensures TraversedAll(codec, rows, path, kids).result == BuildAll(codec, rows, path, kids)
    decreases |rows| - |path|, 0, |kids|
  {
    hide UniqueIds, IsPath, ChildrenOf, Traversed, Build;
    PathsAreShort(rows, path);
    if kids == [] {
    } else {
      PathGrows(rows, path, kids[0]);
      PathsAreShort(rows, path + [kids[0]]);
      TracingKeepsResults(codec, rows, path + [kids[0]]);
      TracingKeepsLists(codec, rows, path, kids[1..]);
    }
  }

  /** A visited row is the end of a chain that continues `path`. */
  ghost predicate ReachedThrough(rows: seq<Row>, path: seq<Row>, r: Row) {
    exists q :: IsPath(rows, q) && path <= q && Last(q) == r
  }

  lemma {:induction false} VisitedAreReached(codec: Codec, rows: seq<Row>, path: seq<Row>, r: Row)
    requires UniqueIds(rows) && IsPath(rows, path) && r in Traversed(codec, rows, path).visited
    ensures ReachedThrough(rows, path, r)
    decreases |rows| - |path|, 1, 0
  {
    hide Leaf, Grouped;
    PathsAreShort(rows, path);
    if r == Last(path) {
      assert path <= path;
    } else {
      var kids := ChildrenOf(rows, Some(Last(path).id));
      var kid := VisitedThroughKid(codec, rows, path, kids, r);
      var q :| IsPath(rows, q) && path + [kid] <= q && Last(q) == r;
      assert path <= q;
    }
  }

  lemma {:induction false} VisitedThroughKid(
    codec: Codec, rows: seq<Row>, path: seq<Row>, kids: seq<Row>, r: Row)
    returns (kid: Row)
    requires UniqueIds(rows) && IsPath(rows, path)
    requires forall kid :: kid in kids ==> kid in ChildrenOf(rows, Some(Last(path).id))
    requires r in TraversedAll(codec, rows, path, kids).visited
    ensures kid in kids && IsPath(rows, path + [kid]) && ReachedThrough(rows, path + [kid], r)
    decreases |rows| - |path|, 0, |kids|
  {
    hide Traversed;
    PathsAreShort(rows, path);
    PathGrows(rows, path, kids[0]);
    PathsAreShort(rows, path + [kids[0]]);
    if r in Traversed(codec, rows, path + [kids[0]]).visited {
      kid := kids[0];
      VisitedAreReached(codec, rows, path + [kid], r);
    } else {
      kid := VisitedThroughKid(codec, rows, path, kids[1..], r);
    }
  }

  /** A row is reached through one child only, and never again from below itself. */
  lemma ReachedOnce(rows: seq<Row>, path: seq<Row>, r: Row, a: Row, b: Row)
    requires UniqueIds(rows) && IsPath(rows, path)
    requires ReachedThrough(rows, path + [a], r)
    ensures r != Last(path)
    ensures ReachedThrough(rows, path + [b], r) ==> a == b
  {
    var q :| IsPath(rows, q) && path + [a] <= q && Last(q) == r;
    assert q[|path|] == (path + [a])[|path|];
    if r == Last(path) {
      PathsAreUnique(rows, path, q);
    }
    if ReachedThrough(rows, path + [b], r) {
      var p :| IsPath(rows, p) && path + [b] <= p && Last(p) == r;
      PathsAreUnique(rows, p, q);
      assert p[|path|] == (path + [b])[|path|];
    }
  }

  ghost predicate NoRepeats(s: seq<Row>) {
    forall i, j :: 0 <= i < j < |s| ==> s[i] != s[j]
  }

  lemma NoRepeatsConcat(a: seq<Row>, b: seq<Row>)
    requires NoRepeats(a) && NoRepeats(b) && (forall r :: r in a ==> r !in b)
    ensures NoRepeats(a + b)
  {
    forall i, j | 0 <= i < j < |a + b| ensures (a + b)[i] != (a + b)[j] {
      if i < |a| <= j {
        assert a[i] in a && b[j - |a|] in b;
      }
    }
  }

  lemma {:induction false} NoRepeatsIsMultiplicity(s: seq<Row>)
    ensures NoRepeats(s) <==> forall r :: multiset(s)[r] <= 1
  {
    if s == [] {
    } else {
      var n := |s| - 1;
      NoRepeatsIsMultiplicity(s[..n]);
      assert s == s[..n] + [s[n]];
      assert s[n] in s[..n] <==> multiset(s[..n])[s[n]] >= 1;
      if NoRepeats(s) {
        assert NoRepeats(s[..n]) && s[n] !in s[..n];
      }
      if forall r :: multiset(s)[r] <= 1 {
        assert forall r :: multiset(s[..n])[r] <= multiset(s)[r];
        assert multiset(s)[s[n]] == multiset(s[..n])[s[n]] + 1;
      }
    }
  }

  lemma {:induction false} WithParentNoRepeats(rows: seq<Row>, parent: Option<Uuid>)
    requires UniqueIds(rows)
    ensures NoRepeats(WithParent(rows, parent))
  {
    if rows == [] {
    } else {
      var n := |rows| - 1;
      WithParentNoRepeats(rows[..n], parent);
      WithParentMembers(rows[..n], parent);
      assert rows[n] !in rows[..n];
    }
  }

  lemma ChildrenNoRepeats(rows: seq<Row>, parent: Option<Uuid>)
    requires UniqueIds(rows)
    ensures NoRepeats(ChildrenOf(rows, parent))
  {
    var found := WithParent(rows, parent);
    WithParentNoRepeats(rows, parent);
    SortedMembers(found);
    NoRepeatsIsMultiplicity(found);
    NoRepeatsIsMultiplicity(SortedByPosition(found));
  }

  lemma {:induction false} EachRowIsVisitedOnce(codec: Codec, rows: seq<Row>, path: seq<Row>)
    requires UniqueIds(rows) && IsPath(rows, path)
    ensures NoRepeats(Traversed(codec, rows, path).visited)
    decreases |rows| - |path|, 1, 0
  {
    hide Leaf, Grouped;
    PathsAreShort(rows, path);
    if Last(path).nodeType == "GROUP" && Last(path).groupOperator.Some? {
      var kids := ChildrenOf(rows, Some(Last(path).id));
      ChildrenNoRepeats(rows, Some(Last(path).id));
      KidsAreVisitedOnce(codec, rows, path, kids);
      if Last(path) in TraversedAll(codec, rows, path, kids).visited {
        var kid := VisitedThroughKid(codec, rows, path, kids, Last(path));
        ReachedOnce(rows, path, Last(path), kid, kid);
      }
    }
  }

  lemma {:induction false} KidsAreVisitedOnce(codec: Codec, rows: seq<Row>, path: seq<Row>, kids: seq<Row>)
    requires UniqueIds(rows) && IsPath(rows, path) && NoRepeats(kids)
    requires forall kid :: kid in kids ==> kid in ChildrenOf(rows, Some(Last(path).id))
    ensures NoRepeats(TraversedAll(codec, rows, path, kids).visited)
    decreases |rows| - |path|, 0, |kids|
  {
    hide Traversed;
    PathsAreShort(rows, path);
    if kids == [] {
    } else {
      PathGrows(rows, path, kids[0]);
      PathsAreShort(rows, path + [kids[0]]);
      EachRowIsVisitedOnce(codec, rows, path + [kids[0]]);
      var first := Traversed(codec, rows, path + [kids[0]]);
      if first.result.Success? {
        KidsAreVisitedOnce(codec, rows, path, kids[1..]);
        var rest := TraversedAll(codec, rows, path, kids[1..]);
        assert kids[0] !in kids[1..];
        forall r | r in first.visited && r in rest.visited ensures false {
          VisitedAreReached(codec, rows, path + [kids[0]], r);
          var other := VisitedThroughKid(codec, rows, path, kids[1..], r);
          ReachedOnce(rows, path, r, kids[0], other);
        }
        NoRepeatsConcat(first.visited, rest.visited);
      }
    }
  }

  /**
  On every table with unique ids, whatever its parent links, cycles and dangling ones included, the
  rebuild visits rows of the table only, and none of them twice, whether it succeeds or fails.
  */
  lemma RebuildVisitsEachRowOnce(codec: Codec, rows: seq<Row>)
    requires UniqueIds(rows)
    ensures var traced := TraversedTable(codec, rows);
            && traced.result == Rebuilt(codec, rows)
            && NoRepeats(traced.visited)
            && (forall r :: r in traced.visited ==> r in rows)
            && |traced.visited| <= |rows|
  {
    hide Traversed, Build;
    var roots := ChildrenOf(rows, None);
    if |roots| == 1 {
      RootIsPath(rows, roots[0]);
      TracingKeepsResults(codec, rows, [roots[0]]);
      EachRowIsVisitedOnce(codec, rows, [roots[0]]);
      var visited := Traversed(codec, rows, [roots[0]]).visited;
      forall r | r in visited
        ensures r in rows
      {
        VisitedAreReached(codec, rows, [roots[0]], r);
      }
      DistinctRowsFit(visited, set r | r in rows);
      SetOfSeqIsSmall(rows);
    }
  }

  // ----- Round trip

  ghost predicate Ascending(rows: seq<Row>) {
    forall i, j :: 0 <= i < j < |rows| ==> rows[i].position <= rows[j].position
  }

  lemma {:induction false} InsertedAscends(sorted: seq<Row>, row: Row)
    requires Ascending(sorted)
    ensures Ascending(Inserted(sorted, row))
  {
    if !(sorted == [] || row.position < sorted[0].position) {
      InsertedAscends(sorted[1..], row);
      InsertedMembers(sorted[1..], row);
      forall r | r in Inserted(sorted[1..], row) ensures sorted[0].position <= r.position {
        assert r in multiset(Inserted(sorted[1..], row));
      }
    }
  }

  lemma {:induction false} SortedAscends(rows: seq<Row>)
    ensures Ascending(SortedByPosition(rows))
  {
    if rows == [] {
    } else {
      SortedAscends(rows[..|rows| - 1]);
      InsertedAscends(SortedByPosition(rows[..|rows| - 1]), rows[|rows| - 1]);
    }
  }

  lemma SomeMember(s: seq<Row>)
    requires s != []
    ensures exists r :: r in s
  {
    assert s[0] in s;
  }

  /** Rows with different positions have one order only. */
  lemma {:induction false} AscendingIsUnique(a: seq<Row>, b: seq<Row>)
    requires Ascending(a) && NoRepeats(a) && (forall r :: r in a <==> r in b)
    requires forall i, j :: 0 <= i < j < |b| ==> b[i].position < b[j].position
    ensures a == b
    decreases |a|
  {
    if a == [] {
      if b != [] {
        SomeMember(b);
      }
    } else {
      assert a[0] in a && b != [];
      assert b[0] in b;
      var i :| 0 <= i < |b| && b[i] == a[0];
      var j :| 0 <= j < |a| && a[j] == b[0];
      assert a[0] == b[0];
      forall r
        ensures r in a[1..] <==> r in b[1..]
      {
        assert r in a <==> r == a[0] || r in a[1..];
        assert r in b <==> r == b[0] || r in b[1..];
        assert a[0] !in a[1..] && b[0] !in b[1..];
      }
      AscendingIsUnique(a[1..], b[1..]);
      assert a == [a[0]] + a[1..] && b == [b[0]] + b[1..];
    }
  }

  /** The first rows of the children of a group, in the children's order. */
  function Heads(codec: Codec, nodes: seq<Node>, parent: Uuid, next: nat): seq<Row> {
    seq(|nodes|, i requires 0 <= i < |nodes| =>
      Head(codec, nodes[i], Some(parent), i, next + SizeOf(nodes[..i])))
  }

  /** `table` holds the tree below `head`: its row fits the node, and its sorted children hold the children. */
  ghost predicate Holds(codec: Codec, table: seq<Row>, node: Node, parent: Option<Uuid>, position: int, next: nat)
    decreases node
  {
    && Head(codec, node, parent, position, next) in table
    && (node.Group? ==>
          && ChildrenOf(table, Some(next)) == Heads(codec, node.children, next, next + 1)
          && forall i :: 0 <= i < |node.children| ==>
               Holds(codec, table, node.children[i], Some(next), i, next + 1 + SizeOf(node.children[..i])))
  }

  lemma BuildOfLeaf(
    codec: Codec, table: seq<Row>, node: Node, path: seq<Row>, parent: Option<Uuid>, position: int, next: nat)
    requires Faithful(codec) && WellFormed(node) && node.Condition? && UniqueIds(table) && IsPath(table, path)
    requires Last(path) == Head(codec, node, parent, position, next)
    ensures Build(codec, table, path) == Success(node)
  {
    hide UniqueIds, IsPath, EncodeValue, DecodeValue, P.OperatorName, P.OperatorNamed;
    P.NamesAreFound(node.operator);
    ValueRoundTrip(codec, node.value);
  }

  lemma {:induction false} BuildOfHeld(
    codec: Codec, table: seq<Row>, node: Node, path: seq<Row>, parent: Option<Uuid>, position: int, next: nat)
    requires Faithful(codec) && WellFormed(node) && UniqueIds(table) && IsPath(table, path)
    requires Holds(codec, table, node, parent, position, next)
    requires Last(path) == Head(codec, node, parent, position, next)
    ensures Build(codec, table, path) == Success(node)
    decreases node, 1, 0
  {
    hide UniqueIds, IsPath, ChildrenOf, BuildAll, Build, SizeOf, Heads, Faithful, WellFormed;
    if node.Condition? {
      BuildOfLeaf(codec, table, node, path, parent, position, next);
    } else {
      BuildOfHeldChildren(codec, table, node, path, next, 0);
      var heads := Heads(codec, node.children, next, next + 1);
      assert node.children[0..] == node.children && heads[0..] == heads;
      BuildOfGroup(codec, table, node, path, heads);
    }
  }

  lemma BuildOfGroup(codec: Codec, table: seq<Row>, node: Node, path: seq<Row>, kids: seq<Row>)
    requires UniqueIds(table) && IsPath(table, path) && WellFormed(node) && node.Group?
    requires Last(path).nodeType == "GROUP" && Last(path).groupOperator == Some(GroupName(node.combinator))
    requires kids == ChildrenOf(table, Some(Last(path).id))
    requires BuildAll(codec, table, path, kids) == Success(node.children)
    ensures Build(codec, table, path) == Success(node)
  {
    hide UniqueIds, IsPath, ChildrenOf, BuildAll;
  }

  lemma {:induction false} BuildOfHeldChildren(
    codec: Codec, table: seq<Row>, node: Node, path: seq<Row>, id: Uuid, k: nat)
    requires Faithful(codec) && node.Group? && WellFormed(node) && UniqueIds(table) && IsPath(table, path)
    requires Last(path).id == id && k <= |node.children|
    requires ChildrenOf(table, Some(id)) == Heads(codec, node.children, id, id + 1)
    requires forall i :: 0 <= i < |node.children| ==>
               Holds(codec, table, node.children[i], Some(id), i, id + 1 + SizeOf(node.children[..i]))
    ensures forall kid :: kid in Heads(codec, node.children, id, id + 1)[k..] ==>
              kid in ChildrenOf(table, Some(Last(path).id))
    ensures BuildAll(codec, table, path, Heads(codec, node.children, id, id + 1)[k..]) == Success(node.children[k..])
    decreases node, 0, |node.children| - k
  {
    hide Holds, SizeOf, ChildrenOf, Build, UniqueIds, Head;
    PathsAreShort(table, path);
    var heads := Heads(codec, node.children, id, id + 1);
    assert forall kid :: kid in heads[k..] ==> kid in heads;
    if k < |node.children| {
      var child := node.children[k];
      assert heads[k..][0] == heads[k] && heads[k..][1..] == heads[k + 1..];
      assert heads[k] in heads && child in node.children;
      PathGrows(table, path, heads[k]);
      BuildOfHeld(codec, table, child, path + [heads[k]], Some(id), k, id + 1 + SizeOf(node.children[..k]));
      BuildOfHeldChildren(codec, table, node, path, id, k + 1);
      assert node.children[k..] == [child] + node.children[k + 1..];
    }
  }

  /** Ids are handed out in the order of the rows. */
  lemma {:induction false} RowsAreNumbered(codec: Codec, node: Node, parent: Option<Uuid>, position: int, next: nat)
    ensures forall k :: 0 <= k < Size(node) ==> Rows(codec, node, parent, position, next)[k].id == next + k
    decreases node
  {
    if node.Group? {
      ChildRowsAreNumbered(codec, node.children, next, next + 1);
    }
  }

  lemma {:induction false} ChildRowsAreNumbered(codec: Codec, nodes: seq<Node>, parent: Uuid, next: nat)
    ensures forall k :: 0 <= k < SizeOf(nodes) ==> ChildRows(codec, nodes, parent, next)[k].id == next + k
    decreases nodes
  {
    if nodes == [] {
    } else {
      var n := |nodes| - 1;
      ChildRowsAreNumbered(codec, nodes[..n], parent, next);
      RowsAreNumbered(codec, nodes[n], Some(parent), n, next + SizeOf(nodes[..n]));
    }
  }

  lemma RowsOfGroup(codec: Codec, node: Node, parent: Option<Uuid>, position: int, next: nat, r: Row)
    requires node.Group?
    ensures r in Rows(codec, node, parent, position, next)
            <==> r == Head(codec, node, parent, position, next) || r in ChildRows(codec, node.children, next, next + 1)
    ensures Size(node) == 1 + SizeOf(node.children)
  {
    hide Head, ChildRows, SizeOf;
  }

  lemma FirstRow(codec: Codec, node: Node, parent: Option<Uuid>, position: int, next: nat)
    ensures Head(codec, node, parent, position, next) in Rows(codec, node, parent, position, next)
    ensures Head(codec, node, parent, position, next).parent == parent
  {
    assert Rows(codec, node, parent, position, next)[0] == Head(codec, node, parent, position, next);
  }

  /** The child of a list whose rows hold r. */
  lemma {:induction false} RowOfChild(codec: Codec, nodes: seq<Node>, parent: Uuid, next: nat, r: Row) returns (i: nat)
    requires r in ChildRows(codec, nodes, parent, next)
    ensures i < |nodes| && r in Rows(codec, nodes[i], Some(parent), i, next + SizeOf(nodes[..i]))
    ensures SizeOf(nodes[..i]) + Size(nodes[i]) <= SizeOf(nodes)
  {
    hide Rows, Size;
    var n := |nodes| - 1;
    if r in Rows(codec, nodes[n], Some(parent), n, next + SizeOf(nodes[..n])) {
      i := n;
    } else {
      i := RowOfChild(codec, nodes[..n], parent, next, r);
      assert nodes[..n][..i] == nodes[..i];
    }
  }

  lemma {:induction false} ChildHasRow(codec: Codec, nodes: seq<Node>, parent: Uuid, next: nat, i: nat, r: Row)
    requires i < |nodes| && r in Rows(codec, nodes[i], Some(parent), i, next + SizeOf(nodes[..i]))
    ensures r in ChildRows(codec, nodes, parent, next)
  {
    hide Rows, SizeOf, Size;
    var n := |nodes| - 1;
    if i < n {
      assert nodes[..n][..i] == nodes[..i];
      ChildHasRow(codec, nodes[..n], parent, next, i, r);
    }
  }

  lemma {:induction false} ChildrenInOrder(nodes: seq<Node>, i: nat, j: nat)
    requires i < j <= |nodes|
    ensures SizeOf(nodes[..i]) + Size(nodes[i]) <= SizeOf(nodes[..j])
    decreases j
  {
    assert nodes[..j][..j - 1] == nodes[..j - 1];
    if i < j - 1 {
      ChildrenInOrder(nodes, i, j - 1);
    }
  }

  /** Every row but the first has its parent among the rows of the subtree. */
  lemma {:induction false} ParentsAreInside(
    codec: Codec, node: Node, parent: Option<Uuid>, position: int, next: nat, r: Row)
    requires r in Rows(codec, node, parent, position, next)
    ensures r == Head(codec, node, parent, position, next)
         || (r.parent.Some? && next <= r.parent.value < next + Size(node))
    decreases node
  {
    hide Rows, ChildRows, Size, SizeOf, Head;
    if node.Condition? {
      RowsOfLeaf(codec, node, parent, position, next, r);
    } else {
      RowsOfGroup(codec, node, parent, position, next, r);
      if r != Head(codec, node, parent, position, next) {
        var i := RowOfChild(codec, node.children, next, next + 1, r);
        var start := next + 1 + SizeOf(node.children[..i]);
        assert node.children[i] in node.children;
        ParentsAreInside(codec, node.children[i], Some(next), i, start, r);
        FirstRow(codec, node.children[i], Some(next), i, start);
      }
    }
  }

  lemma RowsOfLeaf(codec: Codec, node: Node, parent: Option<Uuid>, position: int, next: nat, r: Row)
    requires node.Condition? && r in Rows(codec, node, parent, position, next)
    ensures r == Head(codec, node, parent, position, next)
  {
    hide Head;
  }

  /** The table holds all rows of the subtree, and no other row points into it. */
  ghost predicate Covers(codec: Codec, table: seq<Row>, node: Node, parent: Option<Uuid>, position: int, next: nat) {
    && (parent.Some? ==> parent.value < next)
    && (forall r :: r in Rows(codec, node, parent, position, next) ==> r in table)
    && (forall r :: r in table && r.parent.Some? && next <= r.parent.value < next + Size(node) ==>
          r in Rows(codec, node, parent, position, next))
  }

  /** A row of a covered group that points to id `to` below the group stands below the child that owns `to`. */
  lemma BelowChild(codec: Codec, table: seq<Row>, node: Node, parent: Option<Uuid>, position: int, next: nat, r: Row)
    returns (i: nat)
    requires node.Group? && Covers(codec, table, node, parent, position, next)
    requires r in table && r.parent.Some? && next <= r.parent.value < next + Size(node)
    ensures i < |node.children|
    ensures var start := next + 1 + SizeOf(node.children[..i]);
            && r in Rows(codec, node.children[i], Some(next), i, start)
            && (if r.parent.value == next then r == Head(codec, node.children[i], Some(next), i, start)
                else start <= r.parent.value < start + Size(node.children[i]))
  {
    hide Rows, ChildRows, Size, SizeOf;
    RowsOfGroup(codec, node, parent, position, next, r);
    FirstRow(codec, node, parent, position, next);
    i := RowOfChild(codec, node.children, next, next + 1, r);
    FirstRow(codec, node.children[i], Some(next), i, next + 1 + SizeOf(node.children[..i]));
    ParentsAreInside(codec, node.children[i], Some(next), i, next + 1 + SizeOf(node.children[..i]), r);
  }

  lemma ChildrenAreCovered(
    codec: Codec, table: seq<Row>, node: Node, parent: Option<Uuid>, position: int, next: nat, i: nat)
    requires node.Group? && Covers(codec, table, node, parent, position, next) && i < |node.children|
    ensures Covers(codec, table, node.children[i], Some(next), i, next + 1 + SizeOf(node.children[..i]))
  {
    hide Rows, ChildRows, Size, SizeOf, Head;
    var start := next + 1 + SizeOf(node.children[..i]);
    forall r | r in Rows(codec, node.children[i], Some(next), i, start) ensures r in table {
      ChildHasRow(codec, node.children, next, next + 1, i, r);
      RowsOfGroup(codec, node, parent, position, next, r);
    }
    ChildFits(node.children, i);
    GroupSize(node);
    forall r | r in table && r.parent.Some? && start <= r.parent.value < start + Size(node.children[i])
      ensures r in Rows(codec, node.children[i], Some(next), i, start)
    {
      var j := BelowChild(codec, table, node, parent, position, next, r);
      if j < i {
        ChildrenInOrder(node.children, j, i);
      } else if i < j {
        ChildrenInOrder(node.children, i, j);
      }
    }
  }

  lemma GroupSize(node: Node)
    requires node.Group?
    ensures Size(node) == 1 + SizeOf(node.children)
  {
    hide SizeOf;
  }

  lemma ChildFits(nodes: seq<Node>, i: nat)
    requires i < |nodes|
    ensures SizeOf(nodes[..i]) + Size(nodes[i]) <= SizeOf(nodes)
  {
    ChildrenInOrder(nodes, i, |nodes|);
    assert nodes[..|nodes|] == nodes;
  }

  lemma HeadIsInTable(codec: Codec, table: seq<Row>, node: Node, parent: Option<Uuid>, position: int, next: nat, i: nat)
    requires node.Group? && Covers(codec, table, node, parent, position, next) && i < |node.children|
    ensures var head := Head(codec, node.children[i], Some(next), i, next + 1 + SizeOf(node.children[..i]));
            head in table && head.parent == Some(next)
  {
    hide Rows, ChildRows, Size, SizeOf;
    var start := next + 1 + SizeOf(node.children[..i]);
    var head := Head(codec, node.children[i], Some(next), i, start);
    FirstRow(codec, node.children[i], Some(next), i, start);
    ChildHasRow(codec, node.children, next, next + 1, i, head);
    RowsOfGroup(codec, node, parent, position, next, head);
  }

  lemma HeadsAreTheChildren(codec: Codec, table: seq<Row>, node: Node, parent: Option<Uuid>, position: int, next: nat)
    requires node.Group? && UniqueIds(table) && Covers(codec, table, node, parent, position, next)
    ensures ChildrenOf(table, Some(next)) == Heads(codec, node.children, next, next + 1)
  {
    hide Rows, ChildRows, Size, SizeOf, Covers, SortedByPosition, WithParent, UniqueIds, Head;
    var kids, heads := ChildrenOf(table, Some(next)), Heads(codec, node.children, next, next + 1);
    ChildrenMembers(table, Some(next));
    ChildrenNoRepeats(table, Some(next));
    SortedAscends(WithParent(table, Some(next)));
    forall r
      ensures r in kids <==> r in heads
    {
      if r in kids {
        GroupSize(node);
        var i := BelowChild(codec, table, node, parent, position, next, r);
        assert r == heads[i];
      }
      if r in heads {
        var i :| 0 <= i < |heads| && heads[i] == r;
        HeadIsInTable(codec, table, node, parent, position, next, i);
      }
    }
    HeadsAscend(codec, node.children, next, next + 1);
    AscendingIsUnique(kids, heads);
  }

  lemma HeadsAscend(codec: Codec, nodes: seq<Node>, parent: Uuid, next: nat)
    ensures var heads := Heads(codec, nodes, parent, next);
            forall i, j :: 0 <= i < j < |heads| ==> heads[i].position < heads[j].position
  {
    hide SizeOf, EncodeValue;
  }

  lemma {:induction false} CoveredIsHeld(
    codec: Codec, table: seq<Row>, node: Node, parent: Option<Uuid>, position: int, next: nat)
    requires UniqueIds(table) && Covers(codec, table, node, parent, position, next)
    ensures Holds(codec, table, node, parent, position, next)
    decreases node
  {
    hide Rows, ChildRows, Size, SizeOf, ChildrenOf, UniqueIds, Heads, Head;
    FirstRow(codec, node, parent, position, next);
    if node.Group? {
      HeadsAreTheChildren(codec, table, node, parent, position, next);
      forall i | 0 <= i < |node.children|
        ensures Holds(codec, table, node.children[i], Some(next), i, next + 1 + SizeOf(node.children[..i]))
      {
        assert node.children[i] in node.children;
        ChildrenAreCovered(codec, table, node, parent, position, next, i);
        CoveredIsHeld(codec, table, node.children[i], Some(next), i, next + 1 + SizeOf(node.children[..i]));
      }
    }
  }

  lemma ReorderingKeepsIds(rows: seq<Row>, table: seq<Row>)
    requires UniqueIds(rows) && multiset(table) == multiset(rows)
    ensures UniqueIds(table) && forall r :: r in table <==> r in rows
  {
    NoRepeatsIsMultiplicity(rows);
    NoRepeatsIsMultiplicity(table);
    forall r
      ensures r in table <==> r in rows
    {
      assert r in table <==> r in multiset(table);
      assert r in rows <==> r in multiset(rows);
    }
    forall i, j | 0 <= i < j < |table| ensures table[i].id != table[j].id {
      assert table[i] in table && table[j] in table;
      if table[i].id == table[j].id {
        SameIdSameRow(rows, table[i], table[j]);
      }
    }
  }

  lemma RootIsFound(codec: Codec, tree: Node, next: nat, table: seq<Row>)
    requires UniqueIds(table) && (forall r :: r in table <==> r in Rows(codec, tree, None, 0, next))
    ensures ChildrenOf(table, None) == [Head(codec, tree, None, 0, next)]
  {
    var head := Head(codec, tree, None, 0, next);
    ChildrenMembers(table, None);
    ChildrenNoRepeats(table, None);
    SortedAscends(WithParent(table, None));
    assert head == Rows(codec, tree, None, 0, next)[0];
    forall r
      ensures r in ChildrenOf(table, None) <==> r in [head]
    {
      if r in table {
        ParentsAreInside(codec, tree, None, 0, next, r);
      }
    }
    AscendingIsUnique(ChildrenOf(table, None), [head]);
  }

  /** The rows of a tree under their numbers, in whatever order, are rebuilt into exactly that tree. */
  lemma NumberedRoundTrip(codec: Codec, tree: Node, next: nat, table: seq<Row>)
    requires Faithful(codec) && WellFormed(tree) && tree.Group?
    requires multiset(table) == multiset(Rows(codec, tree, None, 0, next))
    ensures UniqueIds(table) && Rebuilt(codec, table) == Success(tree)
  {
    var rows := Rows(codec, tree, None, 0, next);
    RowsAreNumbered(codec, tree, None, 0, next);
    ReorderingKeepsIds(rows, table);
    RootIsFound(codec, tree, next, table);
    CoveredIsHeld(codec, table, tree, None, 0, next);
    RootIsPath(table, Head(codec, tree, None, 0, next));
    BuildOfHeld(codec, table, tree, [Head(codec, tree, None, 0, next)], None, 0, next);
  }
}
