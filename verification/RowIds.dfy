/**
The rows of a condition tree under the uuid4s that are drawn for them.  `ConditionRows` numbers the draws;
here the k-th draw is any id that differs from the other ones.
*/
module RowIds {
  import opened Wrappers
  import opened Conditions
  import opened ConditionRows
  import Collections
  import P = ConditionParser

  function NamedParent(uuid4: nat -> Uuid, parent: Option<nat>): Option<Uuid> {
    if parent.Some? then Some(uuid4(parent.value)) else None
  }

  /** A numbered row under the ids drawn. */
  function Named(uuid4: nat -> Uuid, row: Row): Row {
    row.(id := uuid4(row.id), parent := NamedParent(uuid4, row.parent))
  }

  function NamedAll(uuid4: nat -> Uuid, rows: seq<Row>): (named: seq<Row>)
    ensures |named| == |rows|
  {
    seq(|rows|, i requires 0 <= i < |rows| => Named(uuid4, rows[i]))
  }

  /** No two draws give the same id. */
  ghost predicate Distinct(uuid4: nat -> Uuid) {
    forall i, j :: uuid4(i) == uuid4(j) ==> i == j
  }

  lemma NamedConcat(uuid4: nat -> Uuid, a: seq<Row>, b: seq<Row>)
    ensures NamedAll(uuid4, a + b) == NamedAll(uuid4, a) + NamedAll(uuid4, b)
  {
  }

  /** The list that `_build_rows` appends to, with the supply of uuid4s. */
  class RowWriter {
    const codec: Codec
    const uuid4: nat -> Uuid
    var out: seq<Row>
    var next: nat

    constructor (codec: Codec, uuid4: nat -> Uuid, next: nat)
      ensures this.codec == codec && this.uuid4 == uuid4 && out == [] && this.next == next
    {
      this.codec, this.uuid4 := codec, uuid4;
      this.out, this.next := [], next;
    }

    method BuildRows(node: Node, parent: Option<Uuid>, position: int, ghost drawn: Option<nat>)
      requires parent == NamedParent(uuid4, drawn)
      modifies this
      ensures out == old(out) + NamedAll(uuid4, Rows(codec, node, drawn, position, old(next)))
      ensures next == old(next) + Size(node)
      decreases node
    {
      hide SizeOf, ChildRows, EncodeValue, NamedAll;
      ghost var draw := next;
      var id := uuid4(next);
      next := next + 1;
      ghost var head := Head(codec, node, drawn, position, draw);
      HeadIsNamed(node, parent, position, drawn, draw, id);
      if node.Group? {
        out := out + [Row(id, parent, position, "GROUP", Some(GroupName(node.combinator)), None, None, None)];
        ghost var start := out;
        NoChildren(codec, draw, draw + 1);
        NothingNamed();
        for index := 0 to |node.children|
          invariant out == start + NamedAll(uuid4, ChildRows(codec, node.children[..index], draw, draw + 1))
          invariant next == draw + 1 + SizeOf(node.children[..index])
        {
          OneMoreChild(codec, node.children, index, draw, draw + 1);
          ghost var start := next;
          BuildRows(node.children[index], Some(id), index, Some(draw));
          NamedConcat(uuid4, ChildRows(codec, node.children[..index], draw, draw + 1),
                      Rows(codec, node.children[index], Some(draw), index, start));
        }
        assert node.children[..|node.children|] == node.children;
        NamedConcat(uuid4, [head], ChildRows(codec, node.children, draw, draw + 1));
      } else {
        assert Rows(codec, node, drawn, position, draw) == [head];
        out := out + [Row(id, parent, position, "CONDITION", None, Some(node.fieldKey),
                          Some(P.OperatorName(node.operator)), EncodeValue(codec, node.value))];
      }
    }

    lemma HeadIsNamed(node: Node, parent: Option<Uuid>, position: int, drawn: Option<nat>, draw: nat, id: Uuid)
      requires parent == NamedParent(uuid4, drawn) && id == uuid4(draw)
      ensures NamedAll(uuid4, [Head(codec, node, drawn, position, draw)]) == [Head(codec, node, parent, position, id)]
    {
    }

    lemma NothingNamed()
      ensures NamedAll(uuid4, []) == []
    {
    }
  }

  // ----- The rebuild does not look at what ids are, only at which are equal

  lemma {:induction false} WithParentIsNamed(uuid4: nat -> Uuid, rows: seq<Row>, parent: Option<nat>)
    requires Distinct(uuid4)
    ensures WithParent(NamedAll(uuid4, rows), NamedParent(uuid4, parent)) == NamedAll(uuid4, WithParent(rows, parent))
  {
    if rows == [] {
    } else {
      var n := |rows| - 1;
      WithParentIsNamed(uuid4, rows[..n], parent);
      assert NamedAll(uuid4, rows)[..n] == NamedAll(uuid4, rows[..n]);
      assert NamedParent(uuid4, rows[n].parent) == NamedParent(uuid4, parent) <==> rows[n].parent == parent;
    }
  }

  lemma {:induction false} InsertedIsNamed(uuid4: nat -> Uuid, sorted: seq<Row>, row: Row)
    ensures Inserted(NamedAll(uuid4, sorted), Named(uuid4, row)) == NamedAll(uuid4, Inserted(sorted, row))
  {
    if !(sorted == [] || row.position < sorted[0].position) {
      InsertedIsNamed(uuid4, sorted[1..], row);
      assert NamedAll(uuid4, sorted)[1..] == NamedAll(uuid4, sorted[1..]);
    }
  }

  lemma {:induction false} SortedIsNamed(uuid4: nat -> Uuid, rows: seq<Row>)
    ensures SortedByPosition(NamedAll(uuid4, rows)) == NamedAll(uuid4, SortedByPosition(rows))
  {
    if rows == [] {
    } else {
      var n := |rows| - 1;
      SortedIsNamed(uuid4, rows[..n]);
      assert NamedAll(uuid4, rows)[..n] == NamedAll(uuid4, rows[..n]);
      InsertedIsNamed(uuid4, SortedByPosition(rows[..n]), rows[n]);
    }
  }

  lemma ChildrenAreNamed(uuid4: nat -> Uuid, rows: seq<Row>, parent: Option<nat>)
    requires Distinct(uuid4)
    ensures ChildrenOf(NamedAll(uuid4, rows), NamedParent(uuid4, parent)) == NamedAll(uuid4, ChildrenOf(rows, parent))
  {
    hide WithParent, SortedByPosition, NamedAll;
    WithParentIsNamed(uuid4, rows, parent);
    SortedIsNamed(uuid4, WithParent(rows, parent));
  }

  lemma PathsAreNamed(uuid4: nat -> Uuid, rows: seq<Row>, path: seq<Row>)
    requires Distinct(uuid4) && UniqueIds(rows) && IsPath(rows, path)
    ensures UniqueIds(NamedAll(uuid4, rows)) && IsPath(NamedAll(uuid4, rows), NamedAll(uuid4, path))
    ensures Last(NamedAll(uuid4, path)) == Named(uuid4, Last(path))
  {
    IdsAreNamed(uuid4, rows);
    var names := NamedAll(uuid4, rows);
    forall i | 0 <= i < |path|
      ensures NamedAll(uuid4, path)[i] in names
    {
      var k :| 0 <= k < |rows| && rows[k] == path[i];
      assert names[k] == NamedAll(uuid4, path)[i];
    }
  }

  lemma IdsAreNamed(uuid4: nat -> Uuid, rows: seq<Row>)
    requires Distinct(uuid4) && UniqueIds(rows)
    ensures UniqueIds(NamedAll(uuid4, rows))
  {
  }

  lemma {:induction false} BuildIsTheSame(codec: Codec, uuid4: nat -> Uuid, rows: seq<Row>, path: seq<Row>)
    requires Distinct(uuid4) && UniqueIds(rows) && IsPath(rows, path)
    ensures UniqueIds(NamedAll(uuid4, rows)) && IsPath(NamedAll(uuid4, rows), NamedAll(uuid4, path))
    ensures Build(codec, NamedAll(uuid4, rows), NamedAll(uuid4, path)) == Build(codec, rows, path)
    decreases |rows| - |path|, 1, 0
  {
    hide Distinct, UniqueIds, IsPath, ChildrenOf, NamedAll, BuildAll, DecodeValue, MakeCondition, MakeGroup,
      P.OperatorNamed;
    PathsAreNamed(uuid4, rows, path);
    PathsAreShort(rows, path);
    PathHasLast(rows, path);
    var kids := ChildrenOf(rows, Some(Last(path).id));
    ChildrenAreNamed(uuid4, rows, Some(Last(path).id));
    BuildAllIsTheSame(codec, uuid4, rows, path, kids);
  }

  lemma PathHasLast(rows: seq<Row>, path: seq<Row>)
    requires IsPath(rows, path)
    ensures path != []
  {
  }

  lemma {:induction false} BuildAllIsTheSame(
    codec: Codec, uuid4: nat -> Uuid, rows: seq<Row>, path: seq<Row>, kids: seq<Row>)
    requires Distinct(uuid4) && UniqueIds(rows) && IsPath(rows, path)
    requires forall kid :: kid in kids ==> kid in ChildrenOf(rows, Some(Last(path).id))
    ensures var names, named := NamedAll(uuid4, rows), NamedAll(uuid4, path);
            && UniqueIds(names) && IsPath(names, named)
            && (forall kid :: kid in NamedAll(uuid4, kids) ==> kid in ChildrenOf(names, Some(Last(named).id)))
            && BuildAll(codec, names, named, NamedAll(uuid4, kids)) == BuildAll(codec, rows, path, kids)
    decreases |rows| - |path|, 0, |kids|
  {
    hide Distinct, UniqueIds, IsPath, ChildrenOf, Build;
    PathsAreNamed(uuid4, rows, path);
    PathsAreShort(rows, path);
    ChildrenAreNamed(uuid4, rows, Some(Last(path).id));
    KidsAreNamed(uuid4, ChildrenOf(rows, Some(Last(path).id)), kids);
    if kids == [] {
    } else {
      PathGrows(rows, path, kids[0]);
      PathsAreShort(rows, path + [kids[0]]);
      BuildIsTheSame(codec, uuid4, rows, path + [kids[0]]);
      BuildAllIsTheSame(codec, uuid4, rows, path, kids[1..]);
      assert NamedAll(uuid4, path + [kids[0]]) == NamedAll(uuid4, path) + [NamedAll(uuid4, kids)[0]];
      assert NamedAll(uuid4, kids)[1..] == NamedAll(uuid4, kids[1..]);
    }
  }

  lemma KidsAreNamed(uuid4: nat -> Uuid, all: seq<Row>, some: seq<Row>)
    requires forall r :: r in some ==> r in all
    ensures forall r :: r in NamedAll(uuid4, some) ==> r in NamedAll(uuid4, all)
  {
    forall r | r in NamedAll(uuid4, some)
      ensures r in NamedAll(uuid4, all)
    {
      var i :| 0 <= i < |some| && Named(uuid4, some[i]) == r;
      assert some[i] in some;
      var k :| 0 <= k < |all| && all[k] == some[i];
      assert NamedAll(uuid4, all)[k] == r;
    }
  }

  /** Rebuilding gives the same tree, or the same error, under any distinct ids. */
  lemma RebuiltIsTheSame(codec: Codec, uuid4: nat -> Uuid, rows: seq<Row>)
    requires Distinct(uuid4) && UniqueIds(rows)
    ensures UniqueIds(NamedAll(uuid4, rows)) && Rebuilt(codec, NamedAll(uuid4, rows)) == Rebuilt(codec, rows)
  {
    hide ChildrenOf, Build;
    IdsAreNamed(uuid4, rows);
    ChildrenAreNamed(uuid4, rows, None);
    var roots := ChildrenOf(rows, None);
    if |roots| == 1 {
      RootIsPath(rows, roots[0]);
      BuildIsTheSame(codec, uuid4, rows, [roots[0]]);
      assert NamedAll(uuid4, [roots[0]]) == [NamedAll(uuid4, roots)[0]];
    }
  }

  // ----- Round trip

  /** A reordering of named rows names a reordering. */
  lemma {:induction false} ReorderedNames(
    uuid4: nat -> Uuid, rows: seq<Row>, table: seq<Row>)
    returns (numbered: seq<Row>)
    requires multiset(table) == multiset(NamedAll(uuid4, rows))
    ensures multiset(numbered) == multiset(rows) && NamedAll(uuid4, numbered) == table
    decreases |rows|
  {
    SameLength(table, NamedAll(uuid4, rows));
    if table == [] {
      numbered := [];
    } else {
      var n := |table| - 1;
      var k := Draw(uuid4, rows, table);
      var earlier := ReorderedNames(uuid4, rows[..k] + rows[k + 1..], table[..n]);
      numbered := earlier + [rows[k]];
      Collections.TakenOut(rows, k);
      assert NamedAll(uuid4, numbered) == table[..n] + [table[n]];
      assert table == table[..n] + [table[n]];
    }
  }

  lemma SameLength(a: seq<Row>, b: seq<Row>)
    requires multiset(a) == multiset(b)
    ensures |a| == |b|
  {
    assert |multiset(a)| == |a| && |multiset(b)| == |b|;
  }

  /** The row that the last one names, taken out of both. */
  lemma Draw(uuid4: nat -> Uuid, rows: seq<Row>, table: seq<Row>) returns (k: nat)
    requires multiset(table) == multiset(NamedAll(uuid4, rows)) && table != []
    ensures k < |rows| && Named(uuid4, rows[k]) == table[|table| - 1]
    ensures multiset(table[..|table| - 1]) == multiset(NamedAll(uuid4, rows[..k] + rows[k + 1..]))
  {
    var names, n := NamedAll(uuid4, rows), |table| - 1;
    assert table[n] in multiset(table);
    k :| 0 <= k < |names| && names[k] == table[n];
    NamedWithout(uuid4, rows, k);
    hide NamedAll, Named;
    Collections.WithoutLast(table, names, k);
  }

  lemma NamedWithout(uuid4: nat -> Uuid, rows: seq<Row>, k: nat)
    requires k < |rows|
    ensures var names := NamedAll(uuid4, rows);
            && names[k] == Named(uuid4, rows[k])
            && NamedAll(uuid4, rows[..k] + rows[k + 1..]) == names[..k] + names[k + 1..]
  {
    hide Named;
  }

  /**
  The round trip: the rows written for a tree under any distinct ids, in whatever order they are read
  back, are rebuilt into exactly that tree: nesting, order of children, operators, and values with
  their types.
  */
  lemma RoundTrip(codec: Codec, uuid4: nat -> Uuid, tree: Node, next: nat, table: seq<Row>)
    requires Faithful(codec) && Distinct(uuid4) && WellFormed(tree) && tree.Group?
    requires multiset(table) == multiset(NamedAll(uuid4, Rows(codec, tree, None, 0, next)))
    ensures UniqueIds(table) && Rebuilt(codec, table) == Success(tree)
  {
    hide Rows, Rebuilt, Distinct, Faithful, WellFormed, UniqueIds;
    var numbered := ReorderedNames(uuid4, Rows(codec, tree, None, 0, next), table);
    NumberedRoundTrip(codec, tree, next, numbered);
    RebuiltIsTheSame(codec, uuid4, numbered);
  }
}
