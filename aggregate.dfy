/** The server's hierarchical aggregation engine (api/src/aggregation/aggregate.ts):
    date bucketing, the value-keyed tree of groups, and its depth-first flattening into
    group / leaf / subtotal rows closed by one grand-total row. */
module Aggregate {
  import opened Common
  import opened Text
  import opened GroupKeys
  import opened Sorting

  datatype DateBucket = Day | Week | Month | Quarter

  /** A validated grouping specification: `keys` may repeat a dimension. */
  datatype GroupSpec = GroupSpec(keys: seq<GroupKey>, dateBucket: Option<DateBucket>)

  datatype Activity = Activity(project: string, employee: string, date: string, hours: real)

  datatype RowKind = Group | Leaf | Subtotal | GrandTotal

  /** `label` in the source is a reserved word in Dafny; it is `caption` here. */
  datatype FlatRow = FlatRow(kind: RowKind, level: int, path: seq<string>, caption: string, hours: real)

  /** A tree node. `children` stands for the `Map<string, TreeNode>` of the source: one entry per
      distinct `value`, kept in the Map's insertion order. The root has level -1, no key and an
      empty value (`null` in the source). */
  datatype Node = Node(
    level: int,
    key: Option<GroupKey>,
    value: string,
    caption: string,
    total: real,
    children: seq<Node>,
    leaves: seq<Activity>)

  // ---------------------------------------------------------------------------------------
  // Dates

  /** The `YYYY-MM-DD` shape that the activity body validator enforces (digits, no range check). */
  predicate IsoShaped(s: string)
  {
    && |s| == 10
    && AllDigits(s[..4]) && s[4] == '-'
    && AllDigits(s[5..7]) && s[7] == '-'
    && AllDigits(s[8..])
  }

  /** `iso.split('-').map(Number)` on a well-shaped date. */
  function YearOf(s: string): nat
    requires IsoShaped(s)
  {
    DigitsValue(s[..4])
  }

  function MonthOf(s: string): nat
    requires IsoShaped(s)
  {
    DigitsValue(s[5..7])
  }

  function DayOf(s: string): nat
    requires IsoShaped(s)
  {
    DigitsValue(s[8..])
  }

  predicate LeapYear(y: int)
  {
    y % 4 == 0 && (y % 100 != 0 || y % 400 == 0)
  }

  function DaysInMonth(y: int, m: int): (n: nat)
    requires 1 <= m <= 12
    ensures 28 <= n <= 31
  {
    if m == 2 then (if LeapYear(y) then 29 else 28)
    else if m == 4 || m == 6 || m == 9 || m == 11 then 30
    else 31
  }

  /** Days of the year before the first of month `m`. */
  function DaysBeforeMonth(y: int, m: int): (n: nat)
    requires 1 <= m <= 12
    ensures n <= 31 * (m - 1)
  {
    if m == 1 then 0 else DaysBeforeMonth(y, m - 1) + DaysInMonth(y, m - 1)
  }

  /** `Date.UTC` reads a year in 0..99 as 1900 + year. */
  function UtcYear(y: nat): nat
  {
    if y <= 99 then 1900 + y else y
  }

  /** `floor((Date.UTC(y, m-1, d) - Date.UTC(y, 0, 1)) / 86400000) + 1`. For a month in 1..12,
      `Date.UTC` rolls a day outside the month over linearly, so the count is exact for every
      two-digit day. */
  function DayOfYear(s: string): int
    requires IsoShaped(s) && 1 <= MonthOf(s) <= 12
  {
    DaysBeforeMonth(UtcYear(YearOf(s)), MonthOf(s)) + DayOf(s)
  }

  /** Which inputs `bucketDate` is modelled on: any string for `day` or no mode, a well-shaped
      date for `month` and `quarter`, and additionally a month in 1..12 for `week`. */
  predicate Bucketable(iso: string, mode: Option<DateBucket>)
  {
    match mode
    case None => true
    case Some(Day) => true
    case Some(Week) => IsoShaped(iso) && 1 <= MonthOf(iso) <= 12
    case Some(_) => IsoShaped(iso)
  }

  /** `floor((m-1)/3)+1`; Dafny's `/` floors for a positive divisor. */
  function QuarterOf(m: nat): nat
  {
    (m - 1) / 3 + 1
  }

  /** `floor((dayOfYear-1)/7)+1`, not ISO 8601 week numbering. */
  function WeekOf(dayOfYear: nat): nat
  {
    (dayOfYear - 1) / 7 + 1
  }

  /** `bucketDate(iso, mode)`; the year is printed as the number `Number` read. */
  function BucketDate(iso: string, mode: Option<DateBucket>): string
    requires Bucketable(iso, mode)
  {
    match mode
    case None => iso
    case Some(Day) => iso
    case Some(Month) => NatToString(YearOf(iso)) + "-" + PadStart(NatToString(MonthOf(iso)), 2, '0')
    case Some(Quarter) => NatToString(YearOf(iso)) + "-Q" + NatToString(QuarterOf(MonthOf(iso)))
    case Some(Week) => NatToString(YearOf(iso)) + "-W" + NatToString(WeekOf(DayOfYear(iso)))
  }

  // ---------------------------------------------------------------------------------------
  // Building the tree

  predicate DatesBucketable(data: seq<Activity>, mode: Option<DateBucket>)
  {
    forall i :: 0 <= i < |data| ==> Bucketable(data[i].date, mode)
  }

  /** `{ ...it, date: bucketDate(it.date, spec.dateBucket) }`: applied to every record,
      whether or not `date` is one of the keys. */
  function Enrich(r: Activity, mode: Option<DateBucket>): Activity
    requires Bucketable(r.date, mode)
  {
    r.(date := BucketDate(r.date, mode))
  }

  /** `(enriched as any)[k]`. */
  function Field(r: Activity, k: GroupKey): string
  {
    match k
    case Project => r.project
    case Employee => r.employee
    case Date => r.date
  }

  function NodeLabel(k: GroupKey, v: string): string
  {
    Name(k) + ": " + v
  }

  const EMPTY_ROOT := Node(-1, None, "", "root", 0.0, [], [])

  function NewNode(lvl: nat, k: GroupKey, v: string): Node
  {
    Node(lvl, Some(k), v, NodeLabel(k, v), 0.0, [], [])
  }

  /** The position of the child with value `v` (`node.children.has(val)`), or -1. */
  function FindChild(cs: seq<Node>, v: string): (i: int)
    ensures -1 <= i < |cs|
    ensures i >= 0 ==> cs[i].value == v
    ensures i < 0 ==> forall j :: 0 <= j < |cs| ==> cs[j].value != v
  {
    if cs == [] then -1
    else if cs[0].value == v then 0
    else
      var j := FindChild(cs[1..], v);
      if j < 0 then -1 else j + 1
  }

  /** The child of `n` with value `v`, or the node `node.children.set` creates for it. */
  function ChildFor(n: Node, lvl: nat, k: GroupKey, v: string): Node
  {
    var i := FindChild(n.children, v);
    if i >= 0 then n.children[i] else NewNode(lvl, k, v)
  }

  /** `n` with `u` stored under `u.value` (replacing the child with that value, or appended)
      and `h` more hours in its total. */
  function Attach(n: Node, u: Node, h: real): Node
  {
    var i := FindChild(n.children, u.value);
    n.(children := if i >= 0 then n.children[i := u] else n.children + [u], total := n.total + h)
  }

  /** Record `r` passing through node `n` at level `lvl`: the node's total grows by the
      record's hours; below the last level the record goes on into the child for its value
      (`node.children.get(val)`, created first when missing), at the last level it is pushed
      onto the node's `leaves`. For the root (`lvl == 0`) this is one iteration of the outer
      loop: with no keys the record becomes a leaf of the root, otherwise the inner `for (lvl
      ...)` loop runs and the root's total grows at the end. */
  function Visit(n: Node, r: Activity, keys: seq<GroupKey>, lvl: nat): Node
    requires lvl <= |keys|
    decreases |keys| - lvl
  {
    if lvl == |keys| then n.(leaves := n.leaves + [r], total := n.total + r.hours)
    else Attach(n, Visit(ChildFor(n, lvl, keys[lvl], Field(r, keys[lvl])), r, keys, lvl + 1), r.hours)
  }

  /** The tree after the outer loop has consumed `data`. */
  function BuildTree(data: seq<Activity>, spec: GroupSpec): Node
    requires DatesBucketable(data, spec.dateBucket)
    decreases |data|
  {
    if data == [] then EMPTY_ROOT
    else
      Visit(BuildTree(data[..|data| - 1], spec), Enrich(data[|data| - 1], spec.dateBucket), spec.keys, 0)
  }

  // ---------------------------------------------------------------------------------------
  // Flattening

  function GroupRow(n: Node, path: seq<string>): FlatRow
  {
    FlatRow(Group, n.level, path, n.caption, n.total)
  }

  function SubtotalRow(n: Node, path: seq<string>): FlatRow
  {
    FlatRow(Subtotal, n.level, path, "Subtotal — " + n.caption, n.total)
  }

  function LeafRow(r: Activity, level: int, path: seq<string>): FlatRow
  {
    FlatRow(Leaf, level, path, r.project + " | " + r.employee + " | " + r.date, r.hours)
  }

  function GrandTotalRow(total: real): FlatRow
  {
    FlatRow(GrandTotal, 0, [], "Grand Total", total)
  }

  /** One leaf row per record, in `leaves` order. */
  function LeafRows(leaves: seq<Activity>, level: int, path: seq<string>): (rows: seq<FlatRow>)
    ensures |rows| == |leaves|
  {
    if leaves == [] then []
    else LeafRows(leaves[..|leaves| - 1], level, path) + [LeafRow(leaves[|leaves| - 1], level, path)]
  }

  /** `Array.from(n.children.values()).sort((a, b) => a.value.localeCompare(b.value, 'it',
      {numeric: true}))`, with the collation abstracted as the total preorder `le`. */
  function SortedChildren(n: Node, le: (string, string) -> bool): (cs: seq<Node>)
    ensures multiset(cs) == multiset(n.children)
    ensures forall c :: c in cs ==> c in n.children
  {
    var cs := SortBy(n.children, (c: Node) => c.value, le);
    assert forall c :: c in cs ==> c in multiset(n.children);
    cs
  }

  /** The `group` row `dfs` pushes first for a non-root node. */
  function Opening(n: Node, path: seq<string>): seq<FlatRow>
  {
    if n.level >= 0 then [GroupRow(n, path)] else []
  }

  /** The `subtotal` row `dfs` pushes last for a non-root node. */
  function Closing(n: Node, path: seq<string>): seq<FlatRow>
  {
    if n.level >= 0 then [SubtotalRow(n, path)] else []
  }

  /** The rows `dfs` pushes between them: the node's leaves when it has no children, otherwise
      the children's rows in sorted order. */
  function Middle(n: Node, path: seq<string>, le: (string, string) -> bool): seq<FlatRow>
    decreases n, 1
  {
    if n.children == [] then LeafRows(n.leaves, n.level + 1, path)
    else FlattenChildren(n, SortedChildren(n, le), path, le)
  }

  /** The rows `dfs(n, path)` pushes. */
  function FlattenNode(n: Node, path: seq<string>, le: (string, string) -> bool): seq<FlatRow>
    decreases n, 2
  {
    Opening(n, path) + Middle(n, path, le) + Closing(n, path)
  }

  /** The rows of `for (const child of cs) dfs(child, [...path, child.value])`. */
  function FlattenChildren(parent: Node, cs: seq<Node>, path: seq<string>, le: (string, string) -> bool): seq<FlatRow>
    requires forall c :: c in cs ==> c in parent.children
    decreases parent, 0, |cs|
  {
    if cs == [] then []
    else
      var c := cs[|cs| - 1];
      assert c in parent.children;
      FlattenChildren(parent, cs[..|cs| - 1], path, le) + FlattenNode(c, path + [c.value], le)
  }

  /** The rows `aggregate` returns for a built tree: the top-level children in insertion order
      (`root.children.values()`, not sorted), then the grand total. */
  function Rows(root: Node, le: (string, string) -> bool): seq<FlatRow>
  {
    FlattenChildren(root, root.children, [], le) + [GrandTotalRow(root.total)]
  }

  // ---------------------------------------------------------------------------------------
  // The imperative engine

  /** `dfs(n, path)`: appends the rows of `n`'s subtree to `rows` (the shared array). */
  method Dfs(n: Node, path: seq<string>, le: (string, string) -> bool, rows: seq<FlatRow>)
    returns (out: seq<FlatRow>)
    ensures out == rows + FlattenNode(n, path, le)
    decreases n, 2
  {
    out := rows;
    if n.level >= 0 {
      out := out + [GroupRow(n, path)];
    }
    assert out == rows + Opening(n, path);
    ghost var afterOpening := out;
    if |n.children| == 0 {
      out := PushLeaves(n.leaves, n.level + 1, path, out);
    } else {
      var sorted := SortedChildren(n, le);
      out := DfsChildren(n, sorted, path, le, out);
    }
    assert out == afterOpening + Middle(n, path, le);
    ghost var afterMiddle := out;
    if n.level >= 0 {
      out := out + [SubtotalRow(n, path)];
    }
    assert out == afterMiddle + Closing(n, path);
    RowsAssoc(rows, Opening(n, path), Middle(n, path, le), Closing(n, path));
  }

  lemma RowsAssoc(rows: seq<FlatRow>, a: seq<FlatRow>, b: seq<FlatRow>, c: seq<FlatRow>)
    ensures rows + a + b + c == rows + (a + b + c)
  {
  }

  /** The leaf-row loop of `dfs`. */
  method PushLeaves(leaves: seq<Activity>, level: int, path: seq<string>, rows: seq<FlatRow>)
    returns (out: seq<FlatRow>)
    ensures out == rows + LeafRows(leaves, level, path)
  {
    out := rows;
    for i := 0 to |leaves|
      invariant out == rows + LeafRows(leaves[..i], level, path)
    {
      assert leaves[..i + 1][..i] == leaves[..i];
      out := out + [LeafRow(leaves[i], level, path)];
    }
    assert leaves[..|leaves|] == leaves;
  }

  /** The child loop of `dfs` (and of `aggregate` at the top level): `dfs(child, [...path,
      child.value])` for each child of `cs` in turn. */
  method DfsChildren(parent: Node, cs: seq<Node>, path: seq<string>, le: (string, string) -> bool,
                     rows: seq<FlatRow>)
    returns (out: seq<FlatRow>)
    requires forall c :: c in cs ==> c in parent.children
    ensures out == rows + FlattenChildren(parent, cs, path, le)
    decreases parent, 0
  {
    out := rows;
    for i := 0 to |cs|
      invariant out == rows + FlattenChildren(parent, cs[..i], path, le)
    {
      var child := cs[i];
      assert child in parent.children;
      assert cs[..i + 1][..i] == cs[..i] && cs[..i + 1][i] == child;
      out := Dfs(child, path + [child.value], le, out);
    }
    assert cs[..|cs|] == cs;
  }

  /** The tree-building loop of `aggregate`. */
  method Build(data: seq<Activity>, spec: GroupSpec) returns (root: Node)
    requires DatesBucketable(data, spec.dateBucket)
    ensures root == BuildTree(data, spec)
  {
    root := EMPTY_ROOT;
    var keys := spec.keys;
    for i := 0 to |data|
      invariant root == BuildTree(data[..i], spec)
    {
      assert data[..i + 1][..i] == data[..i];
      var enriched := Enrich(data[i], spec.dateBucket);
      if |keys| == 0 {
        root := root.(leaves := root.leaves + [enriched], total := root.total + enriched.hours);
        continue;
      }
      // the inner level loop, the leaf push and `root.total += enriched.hours`
      root := Visit(root, enriched, keys, 0);
    }
    assert data[..|data|] == data;
  }

  /** `aggregate(data, spec)` with the collation of group values abstracted as `le`. */
  method Aggregate(data: seq<Activity>, spec: GroupSpec, le: (string, string) -> bool)
    returns (rows: seq<FlatRow>)
    requires DatesBucketable(data, spec.dateBucket)
    ensures rows == Rows(BuildTree(data, spec), le)
  {
    var root := Build(data, spec);
    rows := DfsChildren(root, root.children, [], le, []);
    rows := rows + [GrandTotalRow(root.total)];
  }
}
