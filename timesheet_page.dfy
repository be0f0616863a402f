/** The timesheet page's pure helpers (web/src/app/pages/timesheet/timesheet.component.ts):
    rendering a table cell as text, the header and body cells of the current view model, the
    distinct projects or employees offered in the entry form, and resolving the form's choice
    to a name. */
module TimesheetPage {
  import opened Common
  import opened Sorting
  import opened Model

  /** The form value that asks for a new project or employee. */
  const NEW_CHOICE: string := "__new"

  /** `formatValue` on the values a row can hold: a missing cell is empty, a string is itself
      and a number is rendered by `String(n)`, which the model takes as the parameter `num`. */
  function FormatValue(v: Option<Cell>, num: real -> string): (s: string)
    ensures v.None? ==> s == ""
    ensures v.Some? && v.value.Text? ==> s == v.value.s
    ensures v.Some? && v.value.Number? ==> s == num(v.value.n)
  {
    match v
    case None => ""
    case Some(Text(t)) => t
    case Some(Number(n)) => num(n)
  }

  /** `row[col]`: the cell when the row defines the column, else `undefined`. */
  function CellOf(row: Row, col: string): Option<Cell>
  {
    if col in row then Some(row[col]) else None
  }

  /** `vm.columns.map(col => vm.headers[col] ?? col)`. */
  function HeaderCells(columns: seq<string>, headers: map<string, string>): (r: seq<string>)
    ensures |r| == |columns|
    ensures forall i :: 0 <= i < |columns| && columns[i] in headers ==> r[i] == headers[columns[i]]
    ensures forall i :: 0 <= i < |columns| && columns[i] !in headers ==> r[i] == columns[i]
  {
    if columns == [] then []
    else [if columns[0] in headers then headers[columns[0]] else columns[0]] + HeaderCells(columns[1..], headers)
  }

  /** `vm.columns.map(col => formatValue(row[col]))`. */
  function RowCells(columns: seq<string>, row: Row, num: real -> string): (r: seq<string>)
    ensures |r| == |columns|
    ensures forall i :: 0 <= i < |columns| ==> r[i] == FormatValue(CellOf(row, columns[i]), num)
  {
    if columns == [] then [] else [FormatValue(CellOf(row, columns[0]), num)] + RowCells(columns[1..], row, num)
  }

  /** The header line followed by one line of cells per row. */
  function TableCells(vm: TableVM, num: real -> string): (lines: seq<seq<string>>)
    ensures |lines| == 1 + |vm.rows|
    ensures lines[0] == HeaderCells(vm.columns, vm.headers)
    ensures forall i :: 0 <= i < |vm.rows| ==> lines[i + 1] == RowCells(vm.columns, vm.rows[i], num)
    ensures forall i :: 0 <= i < |lines| ==> |lines[i]| == |vm.columns|
  {
    [HeaderCells(vm.columns, vm.headers)] + BodyCells(vm.columns, vm.rows, num)
  }

  function BodyCells(columns: seq<string>, rows: seq<Row>, num: real -> string): (r: seq<seq<string>>)
    ensures |r| == |rows|
    ensures forall i :: 0 <= i < |rows| ==> r[i] == RowCells(columns, rows[i], num)
  {
    if rows == [] then [] else [RowCells(columns, rows[0], num)] + BodyCells(columns, rows[1..], num)
  }

  // ----- distinctNamedEntities -----

  predicate HasId(s: seq<NamedEntity>, id: int)
  {
    exists j :: 0 <= j < |s| && s[j].id == id
  }

  /** The entities of a `Map<number, NamedEntity>` filled with `if (!seen.has(id)) seen.set(id, item)`,
      in the map's insertion order. */
  function FirstPerId(items: seq<NamedEntity>): seq<NamedEntity>
  {
    if items == [] then []
    else
      var f := FirstPerId(items[..|items| - 1]);
      if HasId(f, items[|items| - 1].id) then f else f + [items[|items| - 1]]
  }

  function IdOf(e: NamedEntity): int { e.id }

  function NameOf(e: NamedEntity): string { e.name }

  function Ids(s: seq<NamedEntity>): (r: seq<int>)
    ensures |r| == |s| && forall i :: 0 <= i < |s| ==> r[i] == s[i].id
  {
    if s == [] then [] else Ids(s[..|s| - 1]) + [s[|s| - 1].id]
  }

  /** The project or employee list of the entry form: one entity per id, sorted by name under the
      Italian collation, which the model takes as the total preorder `le`. */
  method DistinctNamedEntities(items: seq<NamedEntity>, le: (string, string) -> bool) returns (r: seq<NamedEntity>)
    ensures r == SortBy(FirstPerId(items), NameOf, le)
  {
    var seen: seq<NamedEntity> := [];
    for i := 0 to |items|
      invariant seen == FirstPerId(items[..i])
    {
      assert items[..i + 1][..i] == items[..i];
      if !HasId(seen, items[i].id) {
        seen := seen + [items[i]];
      }
    }
    assert items[..|items|] == items;
    r := SortBy(seen, NameOf, le);
  }

  /** The kept entities' ids are the distinct ids of the input, in order of first appearance. */
  lemma {:induction false} FirstPerIdIds(items: seq<NamedEntity>)
    ensures Ids(FirstPerId(items)) == Dedup(Ids(items))
    decreases |items|
  {
    if items != [] {
      var pre := items[..|items| - 1];
      var x := items[|items| - 1];
      FirstPerIdIds(pre);
      var f := FirstPerId(pre);
      assert Ids(items) == Ids(pre) + [x.id];
      DedupSnoc(Ids(pre), x.id);
      HasIdIds(f, x.id);
      assert x.id in Dedup(Ids(pre)) <==> x.id in Ids(pre);
      if !HasId(f, x.id) {
        IdsSnoc(f, x);
      }
    }
  }

  lemma HasIdIds(s: seq<NamedEntity>, id: int)
    ensures HasId(s, id) <==> id in Ids(s)
  {
    if id in Ids(s) {
      var j :| 0 <= j < |s| && Ids(s)[j] == id;
    }
  }

  lemma IdsSnoc(s: seq<NamedEntity>, x: NamedEntity)
    ensures Ids(s + [x]) == Ids(s) + [x.id]
  {
    assert (s + [x])[..|s|] == s;
  }

  /** Each kept entity is the first item of the input with its id. */
  lemma {:induction false} FirstPerIdFirst(items: seq<NamedEntity>, k: nat)
    requires k < |FirstPerId(items)|
    ensures exists j :: (0 <= j < |items| && items[j] == FirstPerId(items)[k]
      && forall m :: 0 <= m < j ==> items[m].id != items[j].id)
    decreases |items|
  {
    var pre := items[..|items| - 1];
    var x := items[|items| - 1];
    var f := FirstPerId(pre);
    if k < |f| {
      FirstPerIdFirst(pre, k);
      var j :| 0 <= j < |pre| && pre[j] == f[k] && forall m :: 0 <= m < j ==> pre[m].id != pre[j].id;
      assert items[j] == FirstPerId(items)[k];
      assert forall m :: 0 <= m < j ==> items[m].id != items[j].id;
    } else {
      assert !HasId(f, x.id) && FirstPerId(items)[k] == x;
      FirstPerIdIds(pre);
      forall m | 0 <= m < |items| - 1
        ensures items[m].id != x.id
      {
        assert Ids(pre)[m] == pre[m].id;
        var d := Dedup(Ids(pre));
        assert pre[m].id in d;
        var q :| 0 <= q < |d| && d[q] == pre[m].id;
        assert Ids(f)[q] == f[q].id;
      }
    }
  }

  /** `distinctNamedEntities` returns the first entity per id, ids distinct, every input id
      present, sorted by name, and ties in name keep first-appearance order. */
  lemma DistinctNamedEntitiesSpec(items: seq<NamedEntity>, le: (string, string) -> bool, name: string)
    requires TotalPreorder(le)
    ensures var r := SortBy(FirstPerId(items), NameOf, le);
      && multiset(r) == multiset(FirstPerId(items))
      && (forall i, j :: 0 <= i < j < |r| ==> r[i].id != r[j].id)
      && (forall i :: 0 <= i < |items| ==> HasId(r, items[i].id))
      && SortedBy(r, NameOf, le)
      && Equivalents(r, NameOf, le, name) == Equivalents(FirstPerId(items), NameOf, le, name)
  {
    var f := FirstPerId(items);
    var r := SortBy(f, NameOf, le);
    SortBySorted(f, NameOf, le);
    SortByStable(f, NameOf, le, name);
    SortedDistinct(items, le);
    SortedCovers(items, le);
  }

  lemma SortedDistinct(items: seq<NamedEntity>, le: (string, string) -> bool)
    ensures var r := SortBy(FirstPerId(items), NameOf, le);
      forall i, j :: 0 <= i < j < |r| ==> r[i].id != r[j].id
  {
    FirstPerIdDistinct(items);
    var f := FirstPerId(items);
    assert multiset(SortBy(f, NameOf, le)) == multiset(f);
    assert forall a, b :: 0 <= a < b < |f| ==> f[a].id != f[b].id;
    PermutationDistinct(f, SortBy(f, NameOf, le));
  }

  lemma SortedCovers(items: seq<NamedEntity>, le: (string, string) -> bool)
    ensures forall i :: 0 <= i < |items| ==> HasId(SortBy(FirstPerId(items), NameOf, le), items[i].id)
  {
    FirstPerIdCovers(items);
    PermutationCovers(FirstPerId(items), SortBy(FirstPerId(items), NameOf, le));
  }

  lemma FirstPerIdDistinct(items: seq<NamedEntity>)
    ensures Distinct(FirstPerId(items))
  {
    var f := FirstPerId(items);
    FirstPerIdIds(items);
    forall a, b | 0 <= a < b < |f|
      ensures f[a].id != f[b].id
    {
      assert Ids(f)[a] != Ids(f)[b];
    }
  }

  lemma FirstPerIdCovers(items: seq<NamedEntity>)
    ensures forall i :: 0 <= i < |items| ==> HasId(FirstPerId(items), items[i].id)
  {
    var f := FirstPerId(items);
    FirstPerIdIds(items);
    var d := Dedup(Ids(items));
    forall i | 0 <= i < |items|
      ensures HasId(f, items[i].id)
    {
      assert Ids(items)[i] == items[i].id;
      assert items[i].id in d;
      var q :| 0 <= q < |d| && d[q] == items[i].id;
      assert f[q].id == items[i].id;
    }
  }

  /** A reordering keeps every id. */
  lemma PermutationCovers(f: seq<NamedEntity>, r: seq<NamedEntity>)
    requires multiset(r) == multiset(f)
    ensures forall id :: HasId(f, id) ==> HasId(r, id)
  {
    forall id | HasId(f, id)
      ensures HasId(r, id)
    {
      var q :| 0 <= q < |f| && f[q].id == id;
      assert f[q] in multiset(r);
      var p :| 0 <= p < |r| && r[p] == f[q];
    }
  }

  predicate Distinct(f: seq<NamedEntity>)
  {
    forall a, b :: 0 <= a < b < |f| ==> f[a].id != f[b].id
  }

  /** A reordering of a sequence with distinct ids has distinct ids. */
  lemma PermutationDistinct(f: seq<NamedEntity>, r: seq<NamedEntity>)
    requires multiset(r) == multiset(f)
    requires forall a, b :: 0 <= a < b < |f| ==> f[a].id != f[b].id
    ensures forall i, j :: 0 <= i < j < |r| ==> r[i].id != r[j].id
  {
    forall i, j | 0 <= i < j < |r|
      ensures r[i].id != r[j].id
    {
      assert r[i] in multiset(f) && r[j] in multiset(f);
      var a :| 0 <= a < |f| && f[a] == r[i];
      var b :| 0 <= b < |f| && f[b] == r[j];
      OnceEach(f, a);
      TwiceCount(r, i, j);
      if a != b {
        assert f[a].id != f[b].id || a > b;
        assert a > b ==> f[b].id != f[a].id;
      }
    }
  }

  /** With distinct ids, every element occurs once. */
  lemma OnceEach(f: seq<NamedEntity>, a: nat)
    requires forall x, y :: 0 <= x < y < |f| ==> f[x].id != f[y].id
    requires a < |f|
    ensures multiset(f)[f[a]] == 1
  {
    var x := f[a];
    assert f == f[..a] + [x] + f[a + 1..];
    assert forall b :: 0 <= b < a ==> f[..a][b] != x;
    var g := f[a + 1..];
    forall b | 0 <= b < |g|
      ensures g[b] != x
    {
      assert g[b] == f[a + 1 + b];
    }
    assert multiset(f[..a])[x] == 0;
    assert multiset(f[a + 1..])[x] == 0;
  }

  /** An element at two positions occurs at least twice. */
  lemma TwiceCount(r: seq<NamedEntity>, i: nat, j: nat)
    requires i < j < |r|
    ensures r[i] == r[j] ==> multiset(r)[r[i]] >= 2
  {
    assert r == r[..i] + [r[i]] + r[i + 1..j] + [r[j]] + r[j + 1..];
  }

  // ----- resolveEntityName -----

  /** The characters `String.prototype.trim` removes: ECMAScript WhiteSpace and LineTerminator. */
  predicate IsJsSpace(c: char)
  {
    || c == '\t' || c == '\n' || c == '\U{B}' || c == '\U{C}' || c == '\r' || c == ' '
    || c == '\U{A0}' || c == '\U{1680}' || ('\U{2000}' <= c <= '\U{200A}')
    || c == '\U{2028}' || c == '\U{2029}' || c == '\U{202F}' || c == '\U{205F}'
    || c == '\U{3000}' || c == '\U{FEFF}'
  }

  /** The number of leading white-space characters. */
  function LeadingSpaces(s: string): (n: nat)
    ensures n <= |s|
    ensures forall k :: 0 <= k < n ==> IsJsSpace(s[k])
    ensures n < |s| ==> !IsJsSpace(s[n])
  {
    if s != [] && IsJsSpace(s[0]) then 1 + LeadingSpaces(s[1..]) else 0
  }

  /** The number of trailing white-space characters. */
  function TrailingSpaces(s: string): (n: nat)
    ensures n <= |s|
    ensures forall k :: |s| - n <= k < |s| ==> IsJsSpace(s[k])
    ensures n < |s| ==> !IsJsSpace(s[|s| - n - 1])
  {
    if s != [] && IsJsSpace(s[|s| - 1]) then 1 + TrailingSpaces(s[..|s| - 1]) else 0
  }

  /** `s.trim()`: the longest infix that neither starts nor ends with white space, obtained by
      dropping white space at both ends. */
  function Trim(s: string): (r: string)
    ensures r == [] || (!IsJsSpace(r[0]) && !IsJsSpace(r[|r| - 1]))
    ensures r == [] <==> forall k :: 0 <= k < |s| ==> IsJsSpace(s[k])
    ensures exists i :: (0 <= i <= |s| && r <= s[i..]
      && (forall k :: 0 <= k < i ==> IsJsSpace(s[k]))
      && (forall k :: i + |r| <= k < |s| ==> IsJsSpace(s[k])))
  {
    var a := LeadingSpaces(s);
    var t := s[a..];
    var b := TrailingSpaces(t);
    var r := t[..|t| - b];
    assert r <= s[a..];
    assert forall k :: a + |r| <= k < |s| ==> s[k] == t[k - a];
    r
  }

  /** `resolveEntityName`: the name to submit for a project or employee choice. `number` is
      `Number(choice)` where it denotes an integer id, and `None` for any other result. */
  function ResolveEntityName(choice: Option<string>, nameFromInput: string, index: map<int, NamedEntity>,
                             number: string -> Option<int>): (r: Option<string>)
    ensures choice.None? || choice.value == "" ==> r.None?
    ensures choice == Some(NEW_CHOICE) ==> (r.Some? <==> Trim(nameFromInput) != "")
    ensures choice == Some(NEW_CHOICE) && r.Some? ==> r.value == Trim(nameFromInput)
    ensures choice.Some? && choice.value != "" && choice.value != NEW_CHOICE ==>
      (r.Some? <==> number(choice.value).Some? && number(choice.value).value in index)
    ensures r.Some? && choice.Some? && choice.value != NEW_CHOICE ==>
      number(choice.value).Some? && r.value == index[number(choice.value).value].name
  {
    match choice
    case None => None
    case Some(c) =>
      if c == "" then None
      else if c == NEW_CHOICE then
        var trimmed := Trim(nameFromInput);
        if trimmed != "" then Some(trimmed) else None
      else
        match number(c)
        case None => None
        case Some(id) => if id in index then Some(index[id].name) else None
  }

  /** A new name is never empty, never padded with white space, and is the typed text without
      its surrounding white space. */
  lemma ResolveNewName(nameFromInput: string, index: map<int, NamedEntity>, number: string -> Option<int>)
    ensures var r := ResolveEntityName(Some(NEW_CHOICE), nameFromInput, index, number);
      r.Some? ==> (r.value != [] && !IsJsSpace(r.value[0]) && !IsJsSpace(r.value[|r.value| - 1])
        && exists i :: 0 <= i <= |nameFromInput| && r.value <= nameFromInput[i..])
  {
  }

  /** Trimming is idempotent: a resolved new name resolves to itself when typed again. */
  lemma TrimIdempotent(s: string)
    ensures Trim(Trim(s)) == Trim(s)
  {
    var t := Trim(s);
    if t != [] {
      assert LeadingSpaces(t) == 0;
      assert TrailingSpaces(t) == 0;
      assert t[0..][..|t| - 0] == t;
    }
  }
}
