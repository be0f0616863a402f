/** What the flattening of `aggregate` (api/src/aggregation/aggregate.ts) guarantees about the
    rows it returns: group and subtotal rows nest like brackets around their node's rows; each
    row's path and level agree; the leaf rows below a node carry exactly its total; the rows end
    with the single grand-total row; top-level groups come in order of first appearance and
    deeper ones in comparator order. */
module AggregateFlatten {
  import opened Common
  import opened GroupKeys
  import opened Sorting
  import opened Aggregate
  import opened AggregateTree

  // ---------------------------------------------------------------------------------------
  // Row paths and levels

  /** A row emitted at or below depth `d` for a node reached by `path`: not a grand total, at
      level `d - 1` or deeper, its path extends `path`, and its path length matches its level
      (a group or subtotal row has the path of its node, of length level + 1; a leaf row has
      the path of the node holding it, one level up). */
  predicate RowOk(row: FlatRow, d: nat, path: seq<string>)
  {
    && row.kind != GrandTotal
    && row.level >= d - 1
    && |path| <= |row.path| && row.path[..|path|] == path
    && (row.kind == Leaf ==> |row.path| == row.level)
    && (row.kind != Leaf ==> |row.path| == row.level + 1)
  }

  predicate AllRowsOk(rows: seq<FlatRow>, d: nat, path: seq<string>)
  {
    forall i :: 0 <= i < |rows| ==> RowOk(rows[i], d, path)
  }

  lemma LeafRowsAt(leaves: seq<Activity>, level: int, path: seq<string>, i: nat)
    requires i < |leaves|
    ensures LeafRows(leaves, level, path)[i] == LeafRow(leaves[i], level, path)
    decreases |leaves|
  {
    if i < |leaves| - 1 {
      LeafRowsAt(leaves[..|leaves| - 1], level, path, i);
    }
  }

  lemma ChildShape(parent: Node, keys: seq<GroupKey>, d: nat, c: Node)
    requires Shape(parent, keys, d) && c in parent.children
    ensures Shape(c, keys, d + 1) && (c.leaves != [] || c.children != [])
  {
    var i :| 0 <= i < |parent.children| && parent.children[i] == c;
  }

  lemma {:induction false} NodeRowsOk(n: Node, keys: seq<GroupKey>, path: seq<string>, le: (string, string) -> bool)
    requires Shape(n, keys, |path|) && |path| >= 1
    ensures AllRowsOk(FlattenNode(n, path, le), |path|, path)
    decreases n, 2
  {
    MiddleRowsOk(n, keys, path, le);
    var m := Middle(n, path, le);
    var f := FlattenNode(n, path, le);
    assert f == [GroupRow(n, path)] + m + [SubtotalRow(n, path)];
    forall i | 0 <= i < |f|
      ensures RowOk(f[i], |path|, path)
    {
      if 0 < i < |f| - 1 {
        assert f[i] == m[i - 1];
      }
    }
  }

  /** The rows between a node's group and subtotal rows lie strictly below the node. */
  lemma {:induction false} MiddleRowsOk(n: Node, keys: seq<GroupKey>, path: seq<string>, le: (string, string) -> bool)
    requires Shape(n, keys, |path|) && |path| >= 1
    ensures AllRowsOk(Middle(n, path, le), |path| + 1, path)
    decreases n, 1
  {
    if n.children == [] {
      var rows := LeafRows(n.leaves, n.level + 1, path);
      forall i | 0 <= i < |rows|
        ensures RowOk(rows[i], |path| + 1, path)
      {
        LeafRowsAt(n.leaves, n.level + 1, path, i);
      }
    } else {
      var cs := SortedChildren(n, le);
      ChildrenRowsOk(n, keys, path, cs, le);
    }
  }

  lemma {:induction false} ChildrenRowsOk(parent: Node, keys: seq<GroupKey>, path: seq<string>, cs: seq<Node>,
                                          le: (string, string) -> bool)
    requires Shape(parent, keys, |path|)
    requires forall c :: c in cs ==> c in parent.children
    ensures AllRowsOk(FlattenChildren(parent, cs, path, le), |path| + 1, path)
    decreases parent, 0, |cs|
  {
    if cs != [] {
      var c := cs[|cs| - 1];
      var p := path + [c.value];
      assert c in parent.children;
      ChildShape(parent, keys, |path|, c);
      ChildrenRowsOk(parent, keys, path, cs[..|cs| - 1], le);
      NodeRowsOk(c, keys, p, le);
      var a := FlattenChildren(parent, cs[..|cs| - 1], path, le);
      var b := FlattenNode(c, p, le);
      forall i | 0 <= i < |b|
        ensures RowOk(b[i], |path| + 1, path)
      {
        assert b[i].path[..|p|] == p;
        assert p[..|path|] == path;
        assert b[i].path[..|path|] == b[i].path[..|p|][..|path|];
      }
      assert FlattenChildren(parent, cs, path, le) == a + b;
    }
  }

  // ---------------------------------------------------------------------------------------
  // Bracket nesting

  /** +1 for a `group` row, -1 for a `subtotal` row. */
  function Delta(row: FlatRow): int
  {
    match row.kind
    case Group => 1
    case Subtotal => -1
    case _ => 0
  }

  /** Open groups minus closed ones. */
  function Balance(rows: seq<FlatRow>): int
  {
    if rows == [] then 0 else Balance(rows[..|rows| - 1]) + Delta(rows[|rows| - 1])
  }

  /** Every subtotal closes a group opened before it, and every group is closed. */
  ghost predicate Nested(rows: seq<FlatRow>)
  {
    Balance(rows) == 0 && forall k :: 0 <= k <= |rows| ==> Balance(rows[..k]) >= 0
  }

  lemma {:induction false} BalanceAppend(a: seq<FlatRow>, b: seq<FlatRow>)
    ensures Balance(a + b) == Balance(a) + Balance(b)
    decreases |b|
  {
    if b == [] {
      assert a + b == a;
    } else {
      assert (a + b)[..|a + b| - 1] == a + b[..|b| - 1];
      BalanceAppend(a, b[..|b| - 1]);
    }
  }

  lemma NestedAppend(a: seq<FlatRow>, b: seq<FlatRow>)
    requires Nested(a) && Nested(b)
    ensures Nested(a + b)
  {
    BalanceAppend(a, b);
    forall k | 0 <= k <= |a + b|
      ensures Balance((a + b)[..k]) >= 0
    {
      if k <= |a| {
        assert (a + b)[..k] == a[..k];
      } else {
        assert (a + b)[..k] == a + b[..k - |a|];
        BalanceAppend(a, b[..k - |a|]);
      }
    }
  }

  lemma {:induction false} LeafRowsBalance(leaves: seq<Activity>, level: int, path: seq<string>)
    ensures Nested(LeafRows(leaves, level, path))
    ensures forall k :: 0 <= k <= |leaves| ==> Balance(LeafRows(leaves, level, path)[..k]) == 0
    decreases |leaves|
  {
    var rows := LeafRows(leaves, level, path);
    if leaves != [] {
      LeafRowsBalance(leaves[..|leaves| - 1], level, path);
      assert rows[..|rows| - 1] == LeafRows(leaves[..|leaves| - 1], level, path);
      forall k | 0 <= k <= |leaves|
        ensures Balance(rows[..k]) == 0
      {
        if k < |leaves| {
          assert rows[..k] == LeafRows(leaves[..|leaves| - 1], level, path)[..k];
        } else {
          assert rows[..k] == rows;
        }
      }
    }
  }

  /** The rows of a node open with its group row and close with its subtotal row (same level,
      path and hours, label prefixed with "Subtotal — "), and that subtotal is the one closing
      the group: every proper prefix leaves it open. */
  lemma {:induction false} NodeBrackets(n: Node, keys: seq<GroupKey>, path: seq<string>, le: (string, string) -> bool)
    requires Shape(n, keys, |path|) && |path| >= 1
    ensures var f := FlattenNode(n, path, le);
      && |f| >= 2
      && f[0] == GroupRow(n, path) && f[|f| - 1] == SubtotalRow(n, path)
      && f[0].level == f[|f| - 1].level && f[0].path == f[|f| - 1].path && f[0].hours == f[|f| - 1].hours
      && f[|f| - 1].caption == "Subtotal — " + f[0].caption
      && |f[0].path| == f[0].level + 1
      && Balance(f) == 0
      && forall k :: 1 <= k < |f| ==> Balance(f[..k]) >= 1
    decreases n, 2
  {
    var m := Middle(n, path, le);
    assert FlattenNode(n, path, le) == [GroupRow(n, path)] + m + [SubtotalRow(n, path)];
    MiddleNested(n, keys, path, le);
    BracketBalance(GroupRow(n, path), m, SubtotalRow(n, path));
  }

  lemma BracketBalance(g: FlatRow, m: seq<FlatRow>, t: FlatRow)
    requires g.kind == Group && t.kind == Subtotal && Nested(m)
    ensures Balance([g] + m + [t]) == 0
    ensures forall k :: 1 <= k < |[g] + m + [t]| ==> Balance(([g] + m + [t])[..k]) >= 1
  {
    var f := [g] + m + [t];
    BalanceAppend([g], m);
    BalanceAppend([g] + m, [t]);
    assert Balance([g]) == 1 by {
      assert [g][..0] == [];
    }
    assert Balance([t]) == -1 by {
      assert [t][..0] == [];
    }
    forall k | 1 <= k < |f|
      ensures Balance(f[..k]) >= 1
    {
      assert f[..k] == [g] + m[..k - 1];
      BalanceAppend([g], m[..k - 1]);
    }
  }

  lemma BracketNested(f: seq<FlatRow>)
    requires |f| >= 1 && Balance(f) == 0
    requires forall k :: 1 <= k < |f| ==> Balance(f[..k]) >= 1
    ensures Nested(f)
  {
    assert f[..0] == [];
    assert f[..|f|] == f;
  }

  lemma {:induction false} MiddleNested(n: Node, keys: seq<GroupKey>, path: seq<string>, le: (string, string) -> bool)
    requires Shape(n, keys, |path|)
    ensures Nested(Middle(n, path, le))
    decreases n, 1
  {
    if n.children == [] {
      LeafRowsBalance(n.leaves, n.level + 1, path);
    } else {
      ChildrenNested(n, keys, path, SortedChildren(n, le), le);
    }
  }

  lemma {:induction false} ChildrenNested(parent: Node, keys: seq<GroupKey>, path: seq<string>, cs: seq<Node>,
                                          le: (string, string) -> bool)
    requires Shape(parent, keys, |path|)
    requires forall c :: c in cs ==> c in parent.children
    ensures Nested(FlattenChildren(parent, cs, path, le))
    decreases parent, 0, |cs|
  {
    if cs == [] {
      var e := FlattenChildren(parent, cs, path, le);
      assert e == [];
      assert e[..0] == e;
    } else {
      var c := cs[|cs| - 1];
      assert c in parent.children;
      ChildShape(parent, keys, |path|, c);
      ChildrenNested(parent, keys, path, cs[..|cs| - 1], le);
      NodeBrackets(c, keys, path + [c.value], le);
      BracketNested(FlattenNode(c, path + [c.value], le));
      NestedAppend(FlattenChildren(parent, cs[..|cs| - 1], path, le), FlattenNode(c, path + [c.value], le));
    }
  }

  // ---------------------------------------------------------------------------------------
  // Hours

  function LeafHoursOf(row: FlatRow): real
  {
    if row.kind == Leaf then row.hours else 0.0
  }

  /** The hours carried by the `leaf` rows. */
  function LeafHours(rows: seq<FlatRow>): real
  {
    SumOf(rows, LeafHoursOf)
  }

  lemma {:induction false} LeafRowsHours(leaves: seq<Activity>, level: int, path: seq<string>)
    ensures LeafHours(LeafRows(leaves, level, path)) == SumOf(leaves, Hours)
    decreases |leaves|
  {
    if leaves != [] {
      var rows := LeafRows(leaves, level, path);
      LeafRowsHours(leaves[..|leaves| - 1], level, path);
      assert rows[..|rows| - 1] == LeafRows(leaves[..|leaves| - 1], level, path);
    }
  }

  lemma ChildSums(parent: Node, c: Node)
    requires Sums(parent) && c in parent.children
    ensures Sums(c)
  {
    var i :| 0 <= i < |parent.children| && parent.children[i] == c;
  }

  /** The leaf rows between a node's group and subtotal rows add up to the node's total, the
      hours shown on both of those rows. */
  lemma {:induction false} NodeLeafHours(n: Node, keys: seq<GroupKey>, path: seq<string>, le: (string, string) -> bool)
    requires Shape(n, keys, |path|) && Sums(n) && |path| >= 1
    ensures LeafHours(FlattenNode(n, path, le)) == n.total
    ensures LeafHours(Middle(n, path, le)) == n.total
    decreases n, 2
  {
    MiddleLeafHours(n, keys, path, le);
    var m := Middle(n, path, le);
    SumOfAppend([GroupRow(n, path)], m, LeafHoursOf);
    SumOfAppend([GroupRow(n, path)] + m, [SubtotalRow(n, path)], LeafHoursOf);
    assert [GroupRow(n, path)][..0] == [];
    assert [SubtotalRow(n, path)][..0] == [];
  }

  lemma {:induction false} MiddleLeafHours(n: Node, keys: seq<GroupKey>, path: seq<string>, le: (string, string) -> bool)
    requires Shape(n, keys, |path|) && Sums(n)
    ensures LeafHours(Middle(n, path, le)) == n.total
    decreases n, 1
  {
    if n.children == [] {
      LeafRowsHours(n.leaves, n.level + 1, path);
    } else {
      var cs := SortedChildren(n, le);
      ChildrenLeafHours(n, keys, path, cs, le);
      SumOfPermutation(cs, n.children, Total);
    }
  }

  lemma {:induction false} ChildrenLeafHours(parent: Node, keys: seq<GroupKey>, path: seq<string>, cs: seq<Node>,
                                             le: (string, string) -> bool)
    requires Shape(parent, keys, |path|) && Sums(parent)
    requires forall c :: c in cs ==> c in parent.children
    ensures LeafHours(FlattenChildren(parent, cs, path, le)) == SumOf(cs, Total)
    decreases parent, 0, |cs|
  {
    if cs != [] {
      var c := cs[|cs| - 1];
      assert c in parent.children;
      ChildShape(parent, keys, |path|, c);
      ChildSums(parent, c);
      ChildrenLeafHours(parent, keys, path, cs[..|cs| - 1], le);
      NodeLeafHours(c, keys, path + [c.value], le);
      SumOfAppend(FlattenChildren(parent, cs[..|cs| - 1], path, le), FlattenNode(c, path + [c.value], le), LeafHoursOf);
    }
  }

  // ---------------------------------------------------------------------------------------
  // Order of the groups

  /** The paths of the level-0 `group` rows, in row order. */
  function TopGroups(rows: seq<FlatRow>): seq<seq<string>>
  {
    if rows == [] then []
    else
      var r := rows[|rows| - 1];
      TopGroups(rows[..|rows| - 1]) + (if r.kind == Group && r.level == 0 then [r.path] else [])
  }

  function Singletons(vs: seq<string>): (ps: seq<seq<string>>)
    ensures |ps| == |vs| && forall i :: 0 <= i < |vs| ==> ps[i] == [vs[i]]
  {
    if vs == [] then [] else Singletons(vs[..|vs| - 1]) + [[vs[|vs| - 1]]]
  }

  lemma {:induction false} TopGroupsAppend(a: seq<FlatRow>, b: seq<FlatRow>)
    ensures TopGroups(a + b) == TopGroups(a) + TopGroups(b)
    decreases |b|
  {
    if b == [] {
      assert a + b == a;
    } else {
      assert (a + b)[..|a + b| - 1] == a + b[..|b| - 1];
      TopGroupsAppend(a, b[..|b| - 1]);
    }
  }

  lemma {:induction false} TopGroupsDeeper(rows: seq<FlatRow>)
    requires forall i :: 0 <= i < |rows| ==> rows[i].level >= 1
    ensures TopGroups(rows) == []
    decreases |rows|
  {
    if rows != [] {
      TopGroupsDeeper(rows[..|rows| - 1]);
    }
  }

  lemma TopGroupsSingle(r: FlatRow)
    ensures TopGroups([r]) == if r.kind == Group && r.level == 0 then [r.path] else []
  {
    assert [r][..0] == [];
  }

  lemma RowsOkLevels(rows: seq<FlatRow>, d: nat, path: seq<string>)
    requires AllRowsOk(rows, d, path)
    ensures forall i :: 0 <= i < |rows| ==> rows[i].level >= d - 1
  {
  }

  lemma MiddleTopGroups(c: Node, keys: seq<GroupKey>, v: string, le: (string, string) -> bool)
    requires Shape(c, keys, 1)
    ensures TopGroups(Middle(c, [v], le)) == []
  {
    MiddleRowsOk(c, keys, [v], le);
    RowsOkLevels(Middle(c, [v], le), 2, [v]);
    TopGroupsDeeper(Middle(c, [v], le));
  }

  /** A top-level node contributes exactly one level-0 group row: its own. */
  lemma TopNodeGroups(c: Node, keys: seq<GroupKey>, v: string, le: (string, string) -> bool)
    requires Shape(c, keys, 1)
    ensures TopGroups(FlattenNode(c, [v], le)) == [[v]]
  {
    assert c.level == 0;
    var m := Middle(c, [v], le);
    MiddleTopGroups(c, keys, v, le);
    assert FlattenNode(c, [v], le) == [GroupRow(c, [v])] + m + [SubtotalRow(c, [v])];
    BracketTopGroups(GroupRow(c, [v]), m, SubtotalRow(c, [v]));
  }

  lemma BracketTopGroups(g: FlatRow, m: seq<FlatRow>, t: FlatRow)
    requires g.kind == Group && g.level == 0 && t.kind == Subtotal && TopGroups(m) == []
    ensures TopGroups([g] + m + [t]) == [g.path]
  {
    TopGroupsAppend([g], m);
    TopGroupsAppend([g] + m, [t]);
    TopGroupsSingle(g);
    TopGroupsSingle(t);
  }

  lemma {:induction false} RootTopGroups(root: Node, keys: seq<GroupKey>, cs: seq<Node>, le: (string, string) -> bool)
    requires Shape(root, keys, 0)
    requires forall c :: c in cs ==> c in root.children
    ensures TopGroups(FlattenChildren(root, cs, [], le)) == Singletons(Values(cs))
    decreases |cs|
  {
    if cs != [] {
      var c := cs[|cs| - 1];
      assert c in root.children;
      ChildShape(root, keys, 0, c);
      RootTopGroups(root, keys, cs[..|cs| - 1], le);
      assert [] + [c.value] == [c.value];
      TopNodeGroups(c, keys, c.value, le);
      TopGroupsAppend(FlattenChildren(root, cs[..|cs| - 1], [], le), FlattenNode(c, [c.value], le));
      assert Values(cs)[..|cs| - 1] == Values(cs[..|cs| - 1]);
    }
  }

  /** Below the top level, the children of a node are visited in ascending order of their
      values under the collation, each child once, and children with equal-ranking values keep
      their insertion order. */
  lemma SortedChildrenOrder(n: Node, le: (string, string) -> bool, v: string)
    requires TotalPreorder(le)
    ensures SortedBy(SortedChildren(n, le), (c: Node) => c.value, le)
    ensures multiset(SortedChildren(n, le)) == multiset(n.children)
    ensures Equivalents(SortedChildren(n, le), (c: Node) => c.value, le, v)
         == Equivalents(n.children, (c: Node) => c.value, le, v)
  {
    SortBySorted(n.children, (c: Node) => c.value, le);
    SortByStable(n.children, (c: Node) => c.value, le, v);
  }

  // ---------------------------------------------------------------------------------------
  // The rows `aggregate` returns

  /** The output ends with the one `grandTotal` row, which carries the sum of all input hours;
      every other row sits at level 0 or deeper with a path matching its level, and the group
      and subtotal rows before it nest like brackets. */
  lemma AggregateRowsShape(data: seq<Activity>, spec: GroupSpec, le: (string, string) -> bool)
    requires DatesBucketable(data, spec.dateBucket)
    ensures var rows := Rows(BuildTree(data, spec), le);
      && |rows| >= 1
      && rows[|rows| - 1] == GrandTotalRow(SumOf(data, Hours))
      && AllRowsOk(rows[..|rows| - 1], 1, [])
      && Nested(rows[..|rows| - 1])
  {
    var root := BuildTree(data, spec);
    BuildTreeInv(data, spec);
    BuildTreeTotal(data, spec);
    ChildrenRowsOk(root, spec.keys, [], root.children, le);
    ChildrenNested(root, spec.keys, [], root.children, le);
    var rows := Rows(root, le);
    assert rows[..|rows| - 1] == FlattenChildren(root, root.children, [], le);
  }

  /** With at least one key the leaf rows carry every input hour exactly once. */
  lemma AggregateLeafHours(data: seq<Activity>, spec: GroupSpec, le: (string, string) -> bool)
    requires DatesBucketable(data, spec.dateBucket) && |spec.keys| > 0
    ensures LeafHours(Rows(BuildTree(data, spec), le)) == SumOf(data, Hours)
  {
    var root := BuildTree(data, spec);
    BuildTreeInv(data, spec);
    BuildTreeTotal(data, spec);
    ChildrenLeafHours(root, spec.keys, [], root.children, le);
    var f := FlattenChildren(root, root.children, [], le);
    SumOfAppend(f, [GrandTotalRow(root.total)], LeafHoursOf);
    assert [GrandTotalRow(root.total)][..0] == [];
  }

  /** With no keys the output is the grand-total row alone: the records sit in the root, whose
      leaves `dfs` never visits. */
  lemma AggregateNoKeys(data: seq<Activity>, spec: GroupSpec, le: (string, string) -> bool)
    requires DatesBucketable(data, spec.dateBucket) && spec.keys == []
    ensures Rows(BuildTree(data, spec), le) == [GrandTotalRow(SumOf(data, Hours))]
  {
    BuildTreeNoKeys(data, spec);
    BuildTreeTotal(data, spec);
    var root := BuildTree(data, spec);
    assert FlattenChildren(root, root.children, [], le) == [];
  }

  /** The level-0 groups are the distinct first-key values in order of first appearance. */
  lemma AggregateTopOrder(data: seq<Activity>, spec: GroupSpec, le: (string, string) -> bool)
    requires DatesBucketable(data, spec.dateBucket) && |spec.keys| > 0
    ensures TopGroups(Rows(BuildTree(data, spec), le)) == Singletons(Dedup(TopValues(data, spec)))
  {
    var root := BuildTree(data, spec);
    BuildTreeInv(data, spec);
    BuildTreeOrder(data, spec);
    RootTopGroups(root, spec.keys, root.children, le);
    var f := FlattenChildren(root, root.children, [], le);
    assert Rows(root, le) == f + [GrandTotalRow(root.total)];
    TopGroupsAppend(f, [GrandTotalRow(root.total)]);
    TopGroupsSingle(GrandTotalRow(root.total));
  }
}
