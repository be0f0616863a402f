/** What the tree-building loop of `aggregate` (api/src/aggregation/aggregate.ts) guarantees:
    every record is stored in exactly one `leaves` list, at the end of the path its field values
    spell out; every node's total is the sum of the hours below it; the root's total is the sum
    of all input hours; top-level groups appear in order of first appearance. */
module AggregateTree {
  import opened Common
  import opened Text
  import opened GroupKeys
  import opened Aggregate

  function Hours(r: Activity): real
  {
    r.hours
  }

  function Total(c: Node): real
  {
    c.total
  }

  /** The record's values for the first `|path|` keys are `path`. */
  predicate OnPath(r: Activity, keys: seq<GroupKey>, path: seq<string>)
  {
    |path| <= |keys| && forall j :: 0 <= j < |path| ==> Field(r, keys[j]) == path[j]
  }

  function Values(cs: seq<Node>): (vs: seq<string>)
    ensures |vs| == |cs| && forall i :: 0 <= i < |cs| ==> vs[i] == cs[i].value
  {
    if cs == [] then [] else Values(cs[..|cs| - 1]) + [cs[|cs| - 1].value]
  }

  /** The records stored in the subtree of `n`, node before children, children in order. */
  function AllLeaves(n: Node): seq<Activity>
    decreases n, 1
  {
    n.leaves + ChildLeaves(n.children)
  }

  function ChildLeaves(cs: seq<Node>): seq<Activity>
    decreases cs, 0
  {
    if cs == [] then [] else ChildLeaves(cs[..|cs| - 1]) + AllLeaves(cs[|cs| - 1])
  }

  /** The shape of a node at depth `d` of a tree built for `keys`: its level and key follow
      from the depth and its caption from its key and value; only nodes at depth `|keys|` hold
      records and only the others have children; children have distinct values and are never
      empty. */
  ghost predicate Shape(n: Node, keys: seq<GroupKey>, d: nat)
    decreases n
  {
    && d <= |keys|
    && n.level == d - 1
    && (d == 0 ==> n.key == None)
    && (d > 0 ==> n.key == Some(keys[d - 1]) && n.caption == NodeLabel(keys[d - 1], n.value))
    && (d == |keys| ==> n.children == [])
    && (d < |keys| ==> n.leaves == [])
    && (forall i, j :: 0 <= i < j < |n.children| ==> n.children[i].value != n.children[j].value)
    && (forall i :: 0 <= i < |n.children| ==> n.children[i].leaves != [] || n.children[i].children != [])
    && (forall i :: 0 <= i < |n.children| ==> Shape(n.children[i], keys, d + 1))
  }

  /** Every node's total is the hours of its own records plus its children's totals. */
  ghost predicate Sums(n: Node)
    decreases n
  {
    && n.total == SumOf(n.leaves, Hours) + SumOf(n.children, Total)
    && (forall i :: 0 <= i < |n.children| ==> Sums(n.children[i]))
  }

  /** The node reached by `path` has the path's last value, and every record below it has the
      values the path spells out. */
  ghost predicate Paths(n: Node, keys: seq<GroupKey>, path: seq<string>)
    decreases n
  {
    && (|path| > 0 ==> n.value == path[|path| - 1])
    && (forall j :: 0 <= j < |n.leaves| ==> OnPath(n.leaves[j], keys, path))
    && (forall i :: 0 <= i < |n.children| ==> Paths(n.children[i], keys, path + [n.children[i].value]))
  }

  /** The invariant of the tree-building loop at a node reached by `path`. */
  ghost predicate Inv(n: Node, keys: seq<GroupKey>, path: seq<string>)
  {
    Shape(n, keys, |path|) && Sums(n) && Paths(n, keys, path)
  }

  lemma ChildLeavesAppend(cs: seq<Node>, x: Node)
    ensures ChildLeaves(cs + [x]) == ChildLeaves(cs) + AllLeaves(x)
  {
    assert (cs + [x])[..|cs|] == cs;
  }

  lemma MultisetShuffle<T>(a: multiset<T>, a': multiset<T>, b: multiset<T>, c: multiset<T>, last: multiset<T>)
    requires a' + b == a + c
    ensures (a' + last) + b == (a + last) + c
  {
    assert (a' + last) + b == (a' + b) + last;
  }

  lemma MultisetCancel<T>(a': multiset<T>, a: multiset<T>, b: multiset<T>, e: multiset<T>)
    requires a' + b == a + (b + e)
    ensures a' == a + e
  {
    forall x
      ensures a'[x] == (a + e)[x]
    {
      assert (a' + b)[x] == (a + (b + e))[x];
    }
  }

  lemma MultisetAssoc<T>(a: multiset<T>, b: multiset<T>, c: multiset<T>)
    ensures a + (b + c) == (a + b) + c
  {
  }

  lemma {:induction false} ChildLeavesUpdate(cs: seq<Node>, i: nat, x: Node)
    requires i < |cs|
    ensures multiset(ChildLeaves(cs[i := x])) + multiset(AllLeaves(cs[i]))
         == multiset(ChildLeaves(cs)) + multiset(AllLeaves(x))
    decreases |cs|
  {
    var k := |cs| - 1;
    var u := cs[i := x];
    assert ChildLeaves(cs) == ChildLeaves(cs[..k]) + AllLeaves(cs[k]);
    assert ChildLeaves(u) == ChildLeaves(u[..k]) + AllLeaves(u[k]);
    if i == k {
      assert u[..k] == cs[..k];
    } else {
      assert u[..k] == cs[..k][i := x];
      assert cs[..k][i] == cs[i] && u[k] == cs[k];
      ChildLeavesUpdate(cs[..k], i, x);
      MultisetShuffle(multiset(ChildLeaves(cs[..k])), multiset(ChildLeaves(u[..k])),
        multiset(AllLeaves(cs[i])), multiset(AllLeaves(x)), multiset(AllLeaves(cs[k])));
    }
  }

  lemma SumOfSnoc<T>(s: seq<T>, x: T, f: T -> real)
    ensures SumOf(s + [x], f) == SumOf(s, f) + f(x)
  {
    assert (s + [x])[..|s|] == s;
  }

  /** The unfolding of Visit below the last level, which the proofs below call to take one
      step: find or create the child, visit it, store it back. */
  lemma VisitStep(n: Node, r: Activity, keys: seq<GroupKey>, lvl: nat)
    requires lvl < |keys|
    ensures Visit(n, r, keys, lvl)
         == Attach(n, Visit(ChildFor(n, lvl, keys[lvl], Field(r, keys[lvl])), r, keys, lvl + 1), r.hours)
  {
  }

  /** A visit keeps the node's level, key, value and caption, adds the record's hours to its
      total, and leaves it non-empty. */
  lemma VisitKeeps(n: Node, r: Activity, keys: seq<GroupKey>, lvl: nat)
    requires lvl <= |keys|
    ensures var m := Visit(n, r, keys, lvl);
      && m.level == n.level && m.key == n.key && m.value == n.value && m.caption == n.caption
      && m.total == n.total + r.hours
      && (m.leaves != [] || m.children != [])
  {
  }

  lemma ChildForValue(n: Node, lvl: nat, k: GroupKey, v: string)
    ensures ChildFor(n, lvl, k, v).value == v
  {
  }

  lemma VisitValue(n: Node, r: Activity, keys: seq<GroupKey>, lvl: nat)
    requires lvl <= |keys|
    ensures Visit(n, r, keys, lvl).value == n.value
  {
    VisitKeeps(n, r, keys, lvl);
  }

  // ---- Shape

  lemma ChildForShape(n: Node, keys: seq<GroupKey>, d: nat, v: string)
    requires Shape(n, keys, d) && d < |keys|
    ensures var c := ChildFor(n, d, keys[d], v); c.value == v && Shape(c, keys, d + 1)
  {
  }

  lemma AttachShape(n: Node, keys: seq<GroupKey>, d: nat, u: Node, h: real)
    requires Shape(n, keys, d) && d < |keys|
    requires Shape(u, keys, d + 1) && (u.leaves != [] || u.children != [])
    ensures Shape(Attach(n, u, h), keys, d)
  {
    var i := FindChild(n.children, u.value);
    var cs := if i >= 0 then n.children[i := u] else n.children + [u];
    assert Attach(n, u, h) == n.(children := cs, total := n.total + h);
    ChildrenShape(n.children, cs, keys, d, u, i);
  }

  /** Storing `u` over the child with its value, or after children without it, keeps the
      children distinct, non-empty and shaped. */
  lemma ChildrenShape(before: seq<Node>, cs: seq<Node>, keys: seq<GroupKey>, d: nat, u: Node, i: int)
    requires forall a, b :: 0 <= a < b < |before| ==> before[a].value != before[b].value
    requires forall a :: 0 <= a < |before| ==> before[a].leaves != [] || before[a].children != []
    requires forall a :: 0 <= a < |before| ==> Shape(before[a], keys, d + 1)
    requires Shape(u, keys, d + 1) && (u.leaves != [] || u.children != [])
    requires -1 <= i < |before|
    requires i >= 0 ==> before[i].value == u.value && cs == before[i := u]
    requires i < 0 ==> (forall a :: 0 <= a < |before| ==> before[a].value != u.value) && cs == before + [u]
    ensures forall a, b :: 0 <= a < b < |cs| ==> cs[a].value != cs[b].value
    ensures forall a :: 0 <= a < |cs| ==> cs[a].leaves != [] || cs[a].children != []
    ensures forall a :: 0 <= a < |cs| ==> Shape(cs[a], keys, d + 1)
  {
  }

  lemma PushLeafShape(n: Node, r: Activity, keys: seq<GroupKey>, d: nat)
    requires Shape(n, keys, d) && d == |keys|
    ensures Shape(Visit(n, r, keys, d), keys, d)
  {
  }

  /** A visit keeps the shape of the tree below the node it starts from. */
  lemma {:induction false} VisitShape(n: Node, r: Activity, keys: seq<GroupKey>, d: nat)
    requires Shape(n, keys, d)
    ensures Shape(Visit(n, r, keys, d), keys, d)
    decreases |keys| - d
  {
    if d == |keys| {
      PushLeafShape(n, r, keys, d);
    } else {
      var child := ChildFor(n, d, keys[d], Field(r, keys[d]));
      ChildForShape(n, keys, d, Field(r, keys[d]));
      VisitShape(child, r, keys, d + 1);
      VisitKeeps(child, r, keys, d + 1);
      VisitStep(n, r, keys, d);
      AttachShape(n, keys, d, Visit(child, r, keys, d + 1), r.hours);
    }
  }

  // ---- Sums

  lemma ChildForSums(n: Node, lvl: nat, k: GroupKey, v: string)
    requires Sums(n)
    ensures Sums(ChildFor(n, lvl, k, v))
  {
  }

  lemma ReplaceSums(n: Node, i: nat, u: Node, h: real)
    requires Sums(n) && Sums(u) && i < |n.children| && u.total == n.children[i].total + h
    ensures Sums(n.(children := n.children[i := u], total := n.total + h))
  {
    SumOfUpdate(n.children, i, u, Total);
    var cs := n.children[i := u];
    assert n.total + h == SumOf(n.leaves, Hours) + SumOf(cs, Total);
    assert forall j :: 0 <= j < |cs| ==> Sums(cs[j]);
  }

  lemma AppendSums(n: Node, u: Node, h: real)
    requires Sums(n) && Sums(u) && u.total == h
    ensures Sums(n.(children := n.children + [u], total := n.total + h))
  {
    SumOfSnoc(n.children, u, Total);
    var cs := n.children + [u];
    assert n.total + h == SumOf(n.leaves, Hours) + SumOf(cs, Total);
    assert forall j :: 0 <= j < |cs| ==> Sums(cs[j]);
  }

  lemma AttachSums(n: Node, lvl: nat, k: GroupKey, u: Node, h: real)
    requires Sums(n) && Sums(u)
    requires u.total == ChildFor(n, lvl, k, u.value).total + h
    ensures Sums(Attach(n, u, h))
  {
    var i := FindChild(n.children, u.value);
    if i >= 0 {
      ReplaceSums(n, i, u, h);
    } else {
      AppendSums(n, u, h);
    }
  }

  lemma PushLeafSums(n: Node, r: Activity, keys: seq<GroupKey>, lvl: nat)
    requires Sums(n) && lvl == |keys|
    ensures Sums(Visit(n, r, keys, lvl))
  {
    SumOfSnoc(n.leaves, r, Hours);
  }

  /** A visit keeps every total equal to the hours of the node's records plus its children's
      totals. */
  lemma {:induction false} VisitSums(n: Node, r: Activity, keys: seq<GroupKey>, lvl: nat)
    requires Sums(n) && lvl <= |keys|
    ensures Sums(Visit(n, r, keys, lvl))
    decreases |keys| - lvl
  {
    if lvl == |keys| {
      PushLeafSums(n, r, keys, lvl);
    } else {
      var v := Field(r, keys[lvl]);
      var child := ChildFor(n, lvl, keys[lvl], v);
      ChildForSums(n, lvl, keys[lvl], v);
      VisitSums(child, r, keys, lvl + 1);
      VisitKeeps(child, r, keys, lvl + 1);
      VisitStep(n, r, keys, lvl);
      assert child.value == v;
      AttachSums(n, lvl, keys[lvl], Visit(child, r, keys, lvl + 1), r.hours);
    }
  }

  // ---- Paths

  lemma ChildForPaths(n: Node, keys: seq<GroupKey>, path: seq<string>, k: GroupKey, v: string)
    requires Paths(n, keys, path)
    ensures Paths(ChildFor(n, |path|, k, v), keys, path + [v])
  {
    var i := FindChild(n.children, v);
    if i >= 0 {
      assert Paths(n.children[i], keys, path + [n.children[i].value]);
    }
  }

  lemma AttachPaths(n: Node, keys: seq<GroupKey>, path: seq<string>, u: Node, h: real)
    requires Paths(n, keys, path) && Paths(u, keys, path + [u.value])
    ensures Paths(Attach(n, u, h), keys, path)
  {
    var cs := Attach(n, u, h).children;
    assert forall j :: 0 <= j < |cs| ==> Paths(cs[j], keys, path + [cs[j].value]);
  }

  lemma PushLeafPaths(n: Node, r: Activity, keys: seq<GroupKey>, path: seq<string>)
    requires Paths(n, keys, path) && OnPath(r, keys, path) && |path| == |keys|
    ensures Paths(Visit(n, r, keys, |path|), keys, path)
  {
  }

  lemma OnPathSnoc(r: Activity, keys: seq<GroupKey>, path: seq<string>)
    requires OnPath(r, keys, path) && |path| < |keys|
    ensures OnPath(r, keys, path + [Field(r, keys[|path|])])
  {
  }

  /** The step of a visit below the last level, given that the visit of the child kept its
      paths. */
  lemma VisitPathsStep(n: Node, r: Activity, keys: seq<GroupKey>, path: seq<string>)
    requires Paths(n, keys, path) && |path| < |keys|
    requires var v := Field(r, keys[|path|]);
      Paths(Visit(ChildFor(n, |path|, keys[|path|], v), r, keys, |path| + 1), keys, path + [v])
    ensures Paths(Visit(n, r, keys, |path|), keys, path)
  {
    var lvl := |path|;
    var v := Field(r, keys[lvl]);
    var child := ChildFor(n, lvl, keys[lvl], v);
    var u := Visit(child, r, keys, lvl + 1);
    ChildForPaths(n, keys, path, keys[lvl], v);
    VisitKeeps(child, r, keys, lvl + 1);
    VisitStep(n, r, keys, lvl);
    assert u.value == v;
    AttachPaths(n, keys, path, u, r.hours);
  }

  /** A visit for a record whose values match the path stores it where the path leads. */
  lemma {:induction false} VisitPaths(n: Node, r: Activity, keys: seq<GroupKey>, path: seq<string>)
    requires Paths(n, keys, path) && OnPath(r, keys, path)
    ensures Paths(Visit(n, r, keys, |path|), keys, path)
    decreases |keys| - |path|
  {
    var lvl := |path|;
    if lvl == |keys| {
      PushLeafPaths(n, r, keys, path);
    } else {
      var v := Field(r, keys[lvl]);
      var child := ChildFor(n, lvl, keys[lvl], v);
      ChildForPaths(n, keys, path, keys[lvl], v);
      OnPathSnoc(r, keys, path);
      VisitPaths(child, r, keys, path + [v]);
      VisitPathsStep(n, r, keys, path);
    }
  }

  // ---- Records

  /** Storing a child whose records are those of the child it replaces plus `e` adds `e` to
      the parent's records. */
  lemma AttachLeaves(n: Node, lvl: nat, k: GroupKey, u: Node, h: real, e: multiset<Activity>)
    requires multiset(AllLeaves(u)) == multiset(AllLeaves(ChildFor(n, lvl, k, u.value))) + e
    ensures multiset(AllLeaves(Attach(n, u, h))) == multiset(AllLeaves(n)) + e
  {
    var i := FindChild(n.children, u.value);
    var m := Attach(n, u, h);
    var cl := multiset(ChildLeaves(n.children));
    var cl' := multiset(ChildLeaves(m.children));
    if i >= 0 {
      ChildLeavesUpdate(n.children, i, u);
      MultisetCancel(cl', cl, multiset(AllLeaves(n.children[i])), e);
    } else {
      ChildLeavesAppend(n.children, u);
    }
    assert AllLeaves(m) == n.leaves + ChildLeaves(m.children);
    MultisetAssoc(multiset(n.leaves), cl, e);
  }

  lemma PushLeafLeaves(n: Node, r: Activity, keys: seq<GroupKey>, lvl: nat)
    requires lvl == |keys|
    ensures multiset(AllLeaves(Visit(n, r, keys, lvl))) == multiset(AllLeaves(n)) + multiset{r}
  {
    var cl := multiset(ChildLeaves(n.children));
    assert multiset(AllLeaves(Visit(n, r, keys, lvl))) == (multiset(n.leaves) + multiset{r}) + cl;
    MultisetAssoc(multiset(n.leaves), multiset{r}, cl);
    MultisetAssoc(multiset(n.leaves), cl, multiset{r});
  }

  /** How often record `x` is stored below `n`. */
  ghost function Count(n: Node, x: Activity): nat
  {
    multiset(AllLeaves(n))[x]
  }

  /** `after` holds the records of `before` and `r` once more. */
  ghost predicate StoresOnce(before: Node, after: Node, r: Activity)
  {
    forall x :: Count(after, x) == Count(before, x) + (if x == r then 1 else 0)
  }

  lemma StoresOnceBag(before: Node, after: Node, r: Activity)
    ensures StoresOnce(before, after, r)
        <==> multiset(AllLeaves(after)) == multiset(AllLeaves(before)) + multiset{r}
  {
    if StoresOnce(before, after, r) {
      forall x
        ensures multiset(AllLeaves(after))[x] == (multiset(AllLeaves(before)) + multiset{r})[x]
      {
        assert Count(after, x) == Count(before, x) + (if x == r then 1 else 0);
      }
    }
  }

  /** A visit stores the record exactly once below the node it starts from. */
  lemma {:induction false} VisitLeaves(n: Node, r: Activity, keys: seq<GroupKey>, lvl: nat)
    requires lvl <= |keys|
    ensures StoresOnce(n, Visit(n, r, keys, lvl), r)
    decreases |keys| - lvl
  {
    if lvl == |keys| {
      PushLeafLeaves(n, r, keys, lvl);
      StoresOnceBag(n, Visit(n, r, keys, lvl), r);
    } else {
      var child := ChildFor(n, lvl, keys[lvl], Field(r, keys[lvl]));
      var u := Visit(child, r, keys, lvl + 1);
      VisitLeaves(child, r, keys, lvl + 1);
      VisitLeavesStep(n, r, keys, lvl, child, u);
    }
  }

  /** A record stored once in the child it goes into is stored once in the node. */
  lemma VisitLeavesStep(n: Node, r: Activity, keys: seq<GroupKey>, lvl: nat, child: Node, u: Node)
    requires lvl < |keys| && child == ChildFor(n, lvl, keys[lvl], Field(r, keys[lvl]))
    requires u == Visit(child, r, keys, lvl + 1) && StoresOnce(child, u, r)
    ensures StoresOnce(n, Visit(n, r, keys, lvl), r)
  {
    var v := Field(r, keys[lvl]);
    VisitValue(child, r, keys, lvl + 1);
    ChildForValue(n, lvl, keys[lvl], v);
    AttachStores(n, lvl, keys[lvl], child, u, r);
    VisitStep(n, r, keys, lvl);
  }

  lemma AttachStores(n: Node, lvl: nat, k: GroupKey, child: Node, u: Node, r: Activity)
    requires child == ChildFor(n, lvl, k, u.value) && StoresOnce(child, u, r)
    ensures StoresOnce(n, Attach(n, u, r.hours), r)
  {
    StoresOnceBag(child, u, r);
    AttachLeaves(n, lvl, k, u, r.hours, multiset{r});
    StoresOnceBag(n, Attach(n, u, r.hours), r);
  }

  /** A visit from a node satisfying the invariant, for a record whose values match the node's
      path, keeps the invariant. */
  lemma VisitInv(n: Node, r: Activity, keys: seq<GroupKey>, path: seq<string>)
    requires Inv(n, keys, path) && OnPath(r, keys, path)
    ensures Inv(Visit(n, r, keys, |path|), keys, path)
  {
    VisitShape(n, r, keys, |path|);
    VisitSums(n, r, keys, |path|);
    VisitPaths(n, r, keys, path);
  }

  /** `EnrichAll(data)`: every record with its date bucketed. */
  function EnrichAll(data: seq<Activity>, mode: Option<DateBucket>): (e: seq<Activity>)
    requires DatesBucketable(data, mode)
    ensures |e| == |data|
    ensures forall i :: 0 <= i < |data| ==> e[i] == Enrich(data[i], mode)
  {
    if data == [] then [] else EnrichAll(data[..|data| - 1], mode) + [Enrich(data[|data| - 1], mode)]
  }

  /** The value each record has for the first key, in input order. */
  function TopValues(data: seq<Activity>, spec: GroupSpec): (vs: seq<string>)
    requires DatesBucketable(data, spec.dateBucket) && |spec.keys| > 0
    ensures |vs| == |data|
  {
    if data == [] then []
    else TopValues(data[..|data| - 1], spec) + [Field(Enrich(data[|data| - 1], spec.dateBucket), spec.keys[0])]
  }

  /** A visit at the root appends the record's first value to the top-level values when no
      child has it yet, and otherwise leaves them as they are. */
  lemma VisitValues(n: Node, r: Activity, keys: seq<GroupKey>)
    requires |keys| > 0
    ensures var v := Field(r, keys[0]);
      Values(Visit(n, r, keys, 0).children)
        == if v in Values(n.children) then Values(n.children) else Values(n.children) + [v]
  {
    var v := Field(r, keys[0]);
    var i := FindChild(n.children, v);
    var child := ChildFor(n, 0, keys[0], v);
    VisitKeeps(child, r, keys, 1);
    VisitStep(n, r, keys, 0);
    var m := Visit(n, r, keys, 0);
    if i >= 0 {
      assert Values(m.children) == Values(n.children);
    } else {
      assert v !in Values(n.children);
      assert Values(m.children) == Values(n.children) + [v];
    }
  }

  /** The tree after the build loop satisfies the invariant at its root. */
  lemma {:induction false} BuildTreeInv(data: seq<Activity>, spec: GroupSpec)
    requires DatesBucketable(data, spec.dateBucket)
    ensures var root := BuildTree(data, spec);
      root.caption == "root" && root.value == "" && Inv(root, spec.keys, [])
    decreases |data|
  {
    if data != [] {
      var pre := data[..|data| - 1];
      BuildTreeInv(pre, spec);
      var t := BuildTree(pre, spec);
      var r := Enrich(data[|data| - 1], spec.dateBucket);
      assert OnPath(r, spec.keys, []);
      VisitInv(t, r, spec.keys, []);
      VisitKeeps(t, r, spec.keys, 0);
    }
  }

  /** The root's total is the sum of all input hours (`root.total += enriched.hours` for every
      record, bucketing leaves the hours alone). */
  lemma {:induction false} BuildTreeTotal(data: seq<Activity>, spec: GroupSpec)
    requires DatesBucketable(data, spec.dateBucket)
    ensures BuildTree(data, spec).total == SumOf(data, Hours)
    decreases |data|
  {
    if data != [] {
      var pre := data[..|data| - 1];
      BuildTreeTotal(pre, spec);
      VisitKeeps(BuildTree(pre, spec), Enrich(data[|data| - 1], spec.dateBucket), spec.keys, 0);
    }
  }

  /** Each bucketed record is stored exactly once in the tree. */
  lemma {:induction false} BuildTreeLeaves(data: seq<Activity>, spec: GroupSpec)
    requires DatesBucketable(data, spec.dateBucket)
    ensures multiset(AllLeaves(BuildTree(data, spec))) == multiset(EnrichAll(data, spec.dateBucket))
    decreases |data|
  {
    if data != [] {
      var pre := data[..|data| - 1];
      BuildTreeLeaves(pre, spec);
      var r := Enrich(data[|data| - 1], spec.dateBucket);
      VisitLeaves(BuildTree(pre, spec), r, spec.keys, 0);
      StoresOnceBag(BuildTree(pre, spec), Visit(BuildTree(pre, spec), r, spec.keys, 0), r);
      assert EnrichAll(data, spec.dateBucket) == EnrichAll(pre, spec.dateBucket) + [r];
    }
  }

  /** With no keys the root holds every bucketed record, in input order, and has no children. */
  lemma {:induction false} BuildTreeNoKeys(data: seq<Activity>, spec: GroupSpec)
    requires DatesBucketable(data, spec.dateBucket) && spec.keys == []
    ensures BuildTree(data, spec).leaves == EnrichAll(data, spec.dateBucket)
    ensures BuildTree(data, spec).children == []
    decreases |data|
  {
    if data != [] {
      BuildTreeNoKeys(data[..|data| - 1], spec);
    }
  }

  /** The top-level groups are the distinct first-key values, in order of first appearance
      (the insertion order of `root.children`). */
  lemma {:induction false} BuildTreeOrder(data: seq<Activity>, spec: GroupSpec)
    requires DatesBucketable(data, spec.dateBucket) && |spec.keys| > 0
    ensures Values(BuildTree(data, spec).children) == Dedup(TopValues(data, spec))
    decreases |data|
  {
    if data != [] {
      var pre := data[..|data| - 1];
      BuildTreeOrder(pre, spec);
      var r := Enrich(data[|data| - 1], spec.dateBucket);
      VisitValues(BuildTree(pre, spec), r, spec.keys);
      var vs := TopValues(pre, spec);
      DedupSnoc(vs, Field(r, spec.keys[0]));
    }
  }

  /** Every node's total is the sum of the hours of the records stored in its subtree. */
  lemma {:induction false} SubtreeTotal(n: Node)
    requires Sums(n)
    ensures n.total == SumOf(AllLeaves(n), Hours)
    decreases n, 1
  {
    ChildrenTotal(n, |n.children|);
    assert n.children[..|n.children|] == n.children;
    SumOfAppend(n.leaves, ChildLeaves(n.children), Hours);
  }

  lemma {:induction false} ChildrenTotal(n: Node, k: nat)
    requires Sums(n) && k <= |n.children|
    ensures SumOf(n.children[..k], Total) == SumOf(ChildLeaves(n.children[..k]), Hours)
    decreases n, 0, k
  {
    if k > 0 {
      var c := n.children[k - 1];
      ChildrenTotal(n, k - 1);
      SubtreeTotal(c);
      assert n.children[..k][..k - 1] == n.children[..k - 1];
      SumOfAppend(ChildLeaves(n.children[..k - 1]), AllLeaves(c), Hours);
    }
  }
}
