/** The client-side table view model (`buildViewModel`, web/src/app/utils/aggregations.ts):
    raw rows without grouping, otherwise one row per distinct combination of group keys with
    the summed hours, sorted level by level. The Europe/Rome day formatter `toRomeDay` is the
    parameter `romeDay`, and the Italian collation of `localeCompare` the total preorder `le`. */
module ViewModel {
  import opened Common
  import opened Text
  import opened GroupKeys
  import opened Sorting
  import opened Model

  const HEADERS: map<string, string> :=
    map["project" := "Project", "employee" := "Employee", "date" := "Date", "hours" := "Hours"]

  const RAW_COLUMNS: seq<string> := ["project", "employee", "date", "hours"]

  datatype Accessed = Accessed(key: string, caption: string)

  /** `accessors[g](e)`: the grouping key (entity ids, or the local day) and the shown label. */
  function Access(g: GroupKey, e: TimesheetEntry, romeDay: string -> string): Accessed
  {
    match g
    case Project => Accessed("project:" + IntToString(e.project.id), e.project.name)
    case Employee => Accessed("employee:" + IntToString(e.employee.id), e.employee.name)
    case Date => var d := romeDay(e.date); Accessed("date:" + d, d)
  }

  function Labels(e: TimesheetEntry, groupOrder: seq<GroupKey>, romeDay: string -> string): (ls: seq<string>)
    ensures |ls| == |groupOrder|
    ensures forall i :: 0 <= i < |groupOrder| ==> ls[i] == Access(groupOrder[i], e, romeDay).caption
  {
    if groupOrder == [] then []
    else Labels(e, groupOrder[..|groupOrder| - 1], romeDay) + [Access(groupOrder[|groupOrder| - 1], e, romeDay).caption]
  }

  function Keys(e: TimesheetEntry, groupOrder: seq<GroupKey>, romeDay: string -> string): (ks: seq<string>)
    ensures |ks| == |groupOrder|
    ensures forall i :: 0 <= i < |groupOrder| ==> ks[i] == Access(groupOrder[i], e, romeDay).key
  {
    if groupOrder == [] then []
    else Keys(e, groupOrder[..|groupOrder| - 1], romeDay) + [Access(groupOrder[|groupOrder| - 1], e, romeDay).key]
  }

  /** `keys.join('|')`. */
  function Composite(e: TimesheetEntry, groupOrder: seq<GroupKey>, romeDay: string -> string): string
  {
    Join(Keys(e, groupOrder, romeDay), "|")
  }

  /** The inner loop of `buildViewModel`: one accessor call per group, labels and keys pushed in
      group order. */
  method AccessAll(e: TimesheetEntry, groupOrder: seq<GroupKey>, romeDay: string -> string)
    returns (labels: seq<string>, keys: seq<string>)
    ensures labels == Labels(e, groupOrder, romeDay) && keys == Keys(e, groupOrder, romeDay)
  {
    labels, keys := [], [];
    for j := 0 to |groupOrder|
      invariant labels == Labels(e, groupOrder[..j], romeDay) && keys == Keys(e, groupOrder[..j], romeDay)
    {
      assert groupOrder[..j + 1][..j] == groupOrder[..j];
      var a := Access(groupOrder[j], e, romeDay);
      labels := labels + [a.caption];
      keys := keys + [a.key];
    }
    assert groupOrder[..|groupOrder|] == groupOrder;
  }

  // ---------------------------------------------------------------------------------------
  // Buckets

  /** An entry of the `buckets` Map: its composite key and its `Agg` value. */
  datatype Bucket = Bucket(key: string, labels: seq<string>, hours: real)

  /** The position of the bucket for `key` (`buckets.get(composite)`), or -1. */
  function FindBucket(bs: seq<Bucket>, key: string): (i: int)
    ensures -1 <= i < |bs|
    ensures i >= 0 ==> bs[i].key == key
    ensures i < 0 ==> forall j :: 0 <= j < |bs| ==> bs[j].key != key
  {
    if bs == [] then -1
    else if bs[|bs| - 1].key == key then |bs| - 1
    else FindBucket(bs[..|bs| - 1], key)
  }

  /** `buckets.get(key) ?? missing`. */
  function Lookup(bs: seq<Bucket>, key: string, missing: Bucket): (b: Bucket)
    ensures FindBucket(bs, key) >= 0 ==> b == bs[FindBucket(bs, key)]
    ensures FindBucket(bs, key) < 0 ==> b == missing
  {
    var i := FindBucket(bs, key);
    if i >= 0 then bs[i] else missing
  }

  /** `buckets.set(b.key, b)`: replaces the entry in place, or appends a new one. */
  function Put(bs: seq<Bucket>, b: Bucket): seq<Bucket>
  {
    var i := FindBucket(bs, b.key);
    if i >= 0 then bs[i := b] else bs + [b]
  }

  /** The `buckets` Map, in insertion order, after the loop has consumed `data`. */
  function BucketsOf(data: seq<TimesheetEntry>, key: TimesheetEntry -> string,
                     labelsOf: TimesheetEntry -> seq<string>): seq<Bucket>
  {
    if data == [] then []
    else
      var bs := BucketsOf(data[..|data| - 1], key, labelsOf);
      var e := data[|data| - 1];
      var c := key(e);
      Put(bs, Add(Lookup(bs, c, Bucket(c, labelsOf(e), 0.0)), e.hours))
  }

  /** `curr.hours += h`. */
  function Add(b: Bucket, h: real): Bucket
  {
    Bucket(b.key, b.labels, b.hours + h)
  }

  /** One iteration of the bucketing loop. */
  lemma BucketsStep(data: seq<TimesheetEntry>, key: TimesheetEntry -> string, labelsOf: TimesheetEntry -> seq<string>)
    requires data != []
    ensures var bs := BucketsOf(data[..|data| - 1], key, labelsOf);
      var e := data[|data| - 1];
      BucketsOf(data, key, labelsOf) == Put(bs, Add(Lookup(bs, key(e), Bucket(key(e), labelsOf(e), 0.0)), e.hours))
  {
  }

  /** The composite key of an entry for the chosen groups. */
  function CompositeOf(groupOrder: seq<GroupKey>, romeDay: string -> string): TimesheetEntry -> string
  {
    (e: TimesheetEntry) => Composite(e, groupOrder, romeDay)
  }

  function LabelsOf(groupOrder: seq<GroupKey>, romeDay: string -> string): TimesheetEntry -> seq<string>
  {
    (e: TimesheetEntry) => Labels(e, groupOrder, romeDay)
  }

  /** The bucketing loop of `buildViewModel`. */
  method CollectBuckets(data: seq<TimesheetEntry>, groupOrder: seq<GroupKey>, romeDay: string -> string)
    returns (buckets: seq<Bucket>)
    ensures buckets == BucketsOf(data, CompositeOf(groupOrder, romeDay), LabelsOf(groupOrder, romeDay))
  {
    buckets := [];
    for k := 0 to |data|
      invariant buckets == BucketsOf(data[..k], CompositeOf(groupOrder, romeDay), LabelsOf(groupOrder, romeDay))
    {
      assert data[..k + 1][..k] == data[..k];
      var e := data[k];
      var labels, keys := AccessAll(e, groupOrder, romeDay);
      var composite := Join(keys, "|");
      var curr := Lookup(buckets, composite, Bucket(composite, labels, 0.0));
      curr := Add(curr, e.hours);
      buckets := Put(buckets, curr);
    }
    assert data[..|data|] == data;
  }

  // ---------------------------------------------------------------------------------------
  // Rows

  /** A row of the ungrouped table. */
  function RawRow(e: TimesheetEntry, romeDay: string -> string): Row
  {
    map["project" := Text(e.project.name), "employee" := Text(e.employee.name),
        "date" := Text(romeDay(e.date)), "hours" := Number(e.hours)]
  }

  function RawRows(data: seq<TimesheetEntry>, romeDay: string -> string): (rows: seq<Row>)
    ensures |rows| == |data| && forall i :: 0 <= i < |data| ==> rows[i] == RawRow(data[i], romeDay)
  {
    if data == [] then [] else RawRows(data[..|data| - 1], romeDay) + [RawRow(data[|data| - 1], romeDay)]
  }

  /** `{ hours }` with `r[g] = labels[i]` for each group in order. */
  function GroupedRow(groupOrder: seq<GroupKey>, labels: seq<string>, hours: real): Row
    requires |labels| == |groupOrder|
  {
    if groupOrder == [] then map["hours" := Number(hours)]
    else
      var n := |groupOrder| - 1;
      GroupedRow(groupOrder[..n], labels[..n], hours)[Name(groupOrder[n]) := Text(labels[n])]
  }

  predicate LabelsFit(bs: seq<Bucket>, groupOrder: seq<GroupKey>)
  {
    forall i :: 0 <= i < |bs| ==> |bs[i].labels| == |groupOrder|
  }

  function GroupedRows(bs: seq<Bucket>, groupOrder: seq<GroupKey>): (rows: seq<Row>)
    requires LabelsFit(bs, groupOrder)
    ensures |rows| == |bs|
    ensures forall i :: 0 <= i < |bs| ==> rows[i] == GroupedRow(groupOrder, bs[i].labels, bs[i].hours)
  {
    if bs == [] then []
    else GroupedRows(bs[..|bs| - 1], groupOrder) + [GroupedRow(groupOrder, bs[|bs| - 1].labels, bs[|bs| - 1].hours)]
  }

  /** `String(a[g] ?? '')` for a column holding a label. */
  function CellText(r: Row, column: string): string
  {
    if column in r && r[column].Text? then r[column].s else ""
  }

  /** The values the comparator reads, group by group. */
  function SortKey(r: Row, groupOrder: seq<GroupKey>): (k: seq<string>)
    ensures |k| == |groupOrder| && forall i :: 0 <= i < |groupOrder| ==> k[i] == CellText(r, Name(groupOrder[i]))
  {
    if groupOrder == [] then []
    else SortKey(r, groupOrder[..|groupOrder| - 1]) + [CellText(r, Name(groupOrder[|groupOrder| - 1]))]
  }

  /** The comparator of the final sort: the first group whose values compare unequal decides;
      all equal compares 0. (Keys here always have the same length; a shorter key that is a
      prefix of a longer one sorts first.) */
  predicate Lex(a: seq<string>, b: seq<string>, le: (string, string) -> bool)
  {
    if a == [] then true
    else if b == [] then false
    else if !Equiv(le, a[0], b[0]) then le(a[0], b[0])
    else Lex(a[1..], b[1..], le)
  }

  function LexOrder(le: (string, string) -> bool): (seq<string>, seq<string>) -> bool
  {
    (a: seq<string>, b: seq<string>) => Lex(a, b, le)
  }

  function RowKey(groupOrder: seq<GroupKey>): Row -> seq<string>
  {
    (r: Row) => SortKey(r, groupOrder)
  }

  /** The buckets for the chosen groups; every bucket has one label per group. */
  function ViewBuckets(data: seq<TimesheetEntry>, groupOrder: seq<GroupKey>, romeDay: string -> string): (bs: seq<Bucket>)
    ensures bs == BucketsOf(data, CompositeOf(groupOrder, romeDay), LabelsOf(groupOrder, romeDay))
    ensures LabelsFit(bs, groupOrder)
  {
    BucketsLabels(data, groupOrder, romeDay);
    BucketsOf(data, CompositeOf(groupOrder, romeDay), LabelsOf(groupOrder, romeDay))
  }

  /** The view model `buildViewModel` returns. */
  function ViewTable(data: seq<TimesheetEntry>, groupOrder: seq<GroupKey>, romeDay: string -> string,
                     le: (string, string) -> bool): TableVM
  {
    if groupOrder == [] then TableVM(RAW_COLUMNS, HEADERS, RawRows(data, romeDay))
    else
      var bs := ViewBuckets(data, groupOrder, romeDay);
      TableVM(Names(groupOrder) + ["hours"], HEADERS,
              SortBy(GroupedRows(bs, groupOrder), RowKey(groupOrder), LexOrder(le)))
  }

  function Names(groupOrder: seq<GroupKey>): (ns: seq<string>)
    ensures |ns| == |groupOrder| && forall i :: 0 <= i < |groupOrder| ==> ns[i] == Name(groupOrder[i])
  {
    if groupOrder == [] then [] else Names(groupOrder[..|groupOrder| - 1]) + [Name(groupOrder[|groupOrder| - 1])]
  }

  /** `buildViewModel(data, groupOrder)`. */
  method BuildViewModel(data: seq<TimesheetEntry>, groupOrder: seq<GroupKey>, romeDay: string -> string,
                        le: (string, string) -> bool)
    returns (vm: TableVM)
    ensures vm == ViewTable(data, groupOrder, romeDay, le)
  {
    if |groupOrder| == 0 {
      return TableVM(RAW_COLUMNS, HEADERS, RawRows(data, romeDay));
    }
    var buckets := CollectBuckets(data, groupOrder, romeDay);
    BucketsLabels(data, groupOrder, romeDay);
    var rows := SortBy(GroupedRows(buckets, groupOrder), RowKey(groupOrder), LexOrder(le));
    vm := TableVM(Names(groupOrder) + ["hours"], HEADERS, rows);
  }

  // ---------------------------------------------------------------------------------------
  // Properties of the buckets

  lemma BucketsLabels(data: seq<TimesheetEntry>, groupOrder: seq<GroupKey>, romeDay: string -> string)
    ensures LabelsFit(BucketsOf(data, CompositeOf(groupOrder, romeDay), LabelsOf(groupOrder, romeDay)), groupOrder)
  {
    BucketsLabelsLength(data, CompositeOf(groupOrder, romeDay), LabelsOf(groupOrder, romeDay), groupOrder);
  }

  lemma {:induction false} BucketsLabelsLength(data: seq<TimesheetEntry>, key: TimesheetEntry -> string,
                                               labelsOf: TimesheetEntry -> seq<string>, groupOrder: seq<GroupKey>)
    requires forall e :: |labelsOf(e)| == |groupOrder|
    ensures LabelsFit(BucketsOf(data, key, labelsOf), groupOrder)
    decreases |data|
  {
    if data != [] {
      BucketsLabelsLength(data[..|data| - 1], key, labelsOf, groupOrder);
    }
  }

  function KeysIn(data: seq<TimesheetEntry>, key: TimesheetEntry -> string): (cs: seq<string>)
    ensures |cs| == |data| && forall i :: 0 <= i < |data| ==> cs[i] == key(data[i])
  {
    if data == [] then [] else KeysIn(data[..|data| - 1], key) + [key(data[|data| - 1])]
  }

  function KeysOf(bs: seq<Bucket>): (ks: seq<string>)
    ensures |ks| == |bs| && forall i :: 0 <= i < |bs| ==> ks[i] == bs[i].key
  {
    if bs == [] then [] else KeysOf(bs[..|bs| - 1]) + [bs[|bs| - 1].key]
  }

  /** The hours of the entries whose key is `c`. */
  function HoursOf(data: seq<TimesheetEntry>, c: string, key: TimesheetEntry -> string): real
  {
    if data == [] then 0.0
    else HoursOf(data[..|data| - 1], c, key) + (if key(data[|data| - 1]) == c then data[|data| - 1].hours else 0.0)
  }

  /** The position of the first entry whose key is `c`, or -1. */
  function FirstWith(data: seq<TimesheetEntry>, c: string, key: TimesheetEntry -> string): (j: int)
    ensures -1 <= j < |data|
    ensures j >= 0 ==> key(data[j]) == c && forall k :: 0 <= k < j ==> key(data[k]) != c
    ensures j < 0 ==> forall k :: 0 <= k < |data| ==> key(data[k]) != c
  {
    if data == [] then -1
    else
      var j := FirstWith(data[..|data| - 1], c, key);
      if j >= 0 then j
      else if key(data[|data| - 1]) == c then |data| - 1
      else -1
  }

  function BucketHours(b: Bucket): real
  {
    b.hours
  }

  function EntryHours(e: TimesheetEntry): real
  {
    e.hours
  }

  lemma PutKeys(bs: seq<Bucket>, b: Bucket)
    ensures KeysOf(Put(bs, b)) == if b.key in KeysOf(bs) then KeysOf(bs) else KeysOf(bs) + [b.key]
  {
    var i := FindBucket(bs, b.key);
    if i >= 0 {
      assert KeysOf(bs)[i] == b.key;
      assert KeysOf(Put(bs, b)) == KeysOf(bs);
    } else {
      assert b.key !in KeysOf(bs);
      assert KeysOf(Put(bs, b)) == KeysOf(bs) + [b.key];
    }
  }

  lemma KeysStep(data: seq<TimesheetEntry>, key: TimesheetEntry -> string, labelsOf: TimesheetEntry -> seq<string>)
    requires data != []
    ensures var ks := KeysOf(BucketsOf(data[..|data| - 1], key, labelsOf));
      var c := key(data[|data| - 1]);
      KeysOf(BucketsOf(data, key, labelsOf)) == if c in ks then ks else ks + [c]
  {
    var e := data[|data| - 1];
    var bs := BucketsOf(data[..|data| - 1], key, labelsOf);
    var nb := Add(Lookup(bs, key(e), Bucket(key(e), labelsOf(e), 0.0)), e.hours);
    BucketsStep(data, key, labelsOf);
    PutKeys(bs, nb);
    assert nb.key == key(e);
  }

  /** The Map keeps one entry per distinct key, in order of first appearance. */
  lemma {:induction false} BucketsKeys(data: seq<TimesheetEntry>, key: TimesheetEntry -> string,
                                       labelsOf: TimesheetEntry -> seq<string>)
    ensures KeysOf(BucketsOf(data, key, labelsOf)) == Dedup(KeysIn(data, key))
    decreases |data|
  {
    if data != [] {
      var pre := data[..|data| - 1];
      BucketsKeys(pre, key, labelsOf);
      KeysStep(data, key, labelsOf);
      var cs := KeysIn(data, key);
      assert cs[..|cs| - 1] == KeysIn(pre, key);
    }
  }

  lemma {:induction false} HoursOfAbsent(data: seq<TimesheetEntry>, c: string, key: TimesheetEntry -> string)
    requires c !in KeysIn(data, key)
    ensures HoursOf(data, c, key) == 0.0
    decreases |data|
  {
    if data != [] {
      var cs := KeysIn(data, key);
      assert cs[..|cs| - 1] == KeysIn(data[..|data| - 1], key);
      HoursOfAbsent(data[..|data| - 1], c, key);
    }
  }

  lemma NewKeyAbsent(data: seq<TimesheetEntry>, key: TimesheetEntry -> string,
                     labelsOf: TimesheetEntry -> seq<string>, c: string)
    requires FindBucket(BucketsOf(data, key, labelsOf), c) < 0
    ensures c !in KeysIn(data, key)
    ensures FirstWith(data, c, key) < 0
  {
    BucketsKeys(data, key, labelsOf);
    assert c !in KeysOf(BucketsOf(data, key, labelsOf));
  }

  /** Each bucket's hours are the hours of the entries sharing its key. */
  predicate HoursAgree(bs: seq<Bucket>, data: seq<TimesheetEntry>, key: TimesheetEntry -> string)
  {
    forall i :: 0 <= i < |bs| ==> bs[i].hours == HoursOf(data, bs[i].key, key)
  }

  lemma {:induction false} BucketsHours(data: seq<TimesheetEntry>, key: TimesheetEntry -> string,
                                        labelsOf: TimesheetEntry -> seq<string>)
    ensures HoursAgree(BucketsOf(data, key, labelsOf), data, key)
    decreases |data|
  {
    if data != [] {
      BucketsHours(data[..|data| - 1], key, labelsOf);
      BucketsStep(data, key, labelsOf);
      if FindBucket(BucketsOf(data[..|data| - 1], key, labelsOf), key(data[|data| - 1])) < 0 {
        HoursNewKey(data, key, labelsOf);
      } else {
        HoursOldKey(data, key, labelsOf);
      }
    }
  }

  /** One more entry with a key not seen before opens a bucket holding just its hours. */
  lemma HoursNewKey(data: seq<TimesheetEntry>, key: TimesheetEntry -> string, labelsOf: TimesheetEntry -> seq<string>)
    requires data != []
    requires var bs := BucketsOf(data[..|data| - 1], key, labelsOf);
      HoursAgree(bs, data[..|data| - 1], key) && FindBucket(bs, key(data[|data| - 1])) < 0
    ensures HoursAgree(BucketsOf(data, key, labelsOf), data, key)
  {
    var pre := data[..|data| - 1];
    var e := data[|data| - 1];
    var c := key(e);
    var bs := BucketsOf(pre, key, labelsOf);
    BucketsStep(data, key, labelsOf);
    NewKeyAbsent(pre, key, labelsOf, c);
    HoursOfAbsent(pre, c, key);
    var bs' := BucketsOf(data, key, labelsOf);
    assert bs' == bs + [Bucket(c, labelsOf(e), 0.0 + e.hours)];
    forall i | 0 <= i < |bs'|
      ensures bs'[i].hours == HoursOf(data, bs'[i].key, key)
    {
      assert HoursOf(data, bs'[i].key, key) == HoursOf(pre, bs'[i].key, key) + (if c == bs'[i].key then e.hours else 0.0);
    }
  }

  /** One more entry with a key already seen adds its hours to that key's bucket only. */
  lemma HoursOldKey(data: seq<TimesheetEntry>, key: TimesheetEntry -> string, labelsOf: TimesheetEntry -> seq<string>)
    requires data != []
    requires var bs := BucketsOf(data[..|data| - 1], key, labelsOf);
      HoursAgree(bs, data[..|data| - 1], key) && FindBucket(bs, key(data[|data| - 1])) >= 0
    ensures HoursAgree(BucketsOf(data, key, labelsOf), data, key)
  {
    var pre := data[..|data| - 1];
    var e := data[|data| - 1];
    var c := key(e);
    var bs := BucketsOf(pre, key, labelsOf);
    var idx := FindBucket(bs, c);
    BucketsStep(data, key, labelsOf);
    BucketsDistinct(pre, key, labelsOf);
    PutExisting(bs, Add(bs[idx], e.hours));
    var bs' := BucketsOf(data, key, labelsOf);
    forall i | 0 <= i < |bs'|
      ensures bs'[i].hours == HoursOf(data, bs'[i].key, key)
    {
      assert HoursOf(data, bs'[i].key, key) == HoursOf(pre, bs'[i].key, key) + (if c == bs'[i].key then e.hours else 0.0);
      if i != idx {
        assert bs'[i] == bs[i] && bs[i].key != c;
      }
    }
  }

  /** Putting a bucket whose key is present replaces that bucket and nothing else. */
  lemma PutExisting(bs: seq<Bucket>, b: Bucket)
    requires FindBucket(bs, b.key) >= 0
    ensures var i := FindBucket(bs, b.key);
      |Put(bs, b)| == |bs| && Put(bs, b)[i] == b
      && forall j :: 0 <= j < |bs| && j != i ==> Put(bs, b)[j] == bs[j]
  {
  }

  /** No two buckets share a key. */
  lemma BucketsDistinct(data: seq<TimesheetEntry>, key: TimesheetEntry -> string,
                        labelsOf: TimesheetEntry -> seq<string>)
    ensures var bs := BucketsOf(data, key, labelsOf);
      forall i, j :: 0 <= i < j < |bs| ==> bs[i].key != bs[j].key
  {
    var bs := BucketsOf(data, key, labelsOf);
    BucketsKeys(data, key, labelsOf);
    var ks := KeysOf(bs);
    assert forall i, j :: 0 <= i < j < |ks| ==> ks[i] != ks[j];
  }

  /** Each bucket keeps the labels of the first entry that created it. */
  lemma {:induction false} BucketsFirst(data: seq<TimesheetEntry>, key: TimesheetEntry -> string,
                                        labelsOf: TimesheetEntry -> seq<string>)
    ensures var bs := BucketsOf(data, key, labelsOf);
      forall i :: 0 <= i < |bs| ==>
        && FirstWith(data, bs[i].key, key) >= 0
        && bs[i].labels == labelsOf(data[FirstWith(data, bs[i].key, key)])
    decreases |data|
  {
    if data != [] {
      var pre := data[..|data| - 1];
      var e := data[|data| - 1];
      BucketsFirst(pre, key, labelsOf);
      var bs := BucketsOf(pre, key, labelsOf);
      if FindBucket(bs, key(e)) < 0 {
        NewKeyAbsent(pre, key, labelsOf, key(e));
      }
      var bs' := BucketsOf(data, key, labelsOf);
      forall i | 0 <= i < |bs'|
        ensures FirstWith(data, bs'[i].key, key) >= 0
        ensures bs'[i].labels == labelsOf(data[FirstWith(data, bs'[i].key, key)])
      {
        if i < |bs| {
          var j := FirstWith(pre, bs[i].key, key);
          assert bs'[i].key == bs[i].key && bs'[i].labels == bs[i].labels;
          assert data[j] == pre[j];
        }
      }
    }
  }

  /** The buckets together hold all the input hours. */
  lemma {:induction false} BucketsTotal(data: seq<TimesheetEntry>, key: TimesheetEntry -> string,
                                        labelsOf: TimesheetEntry -> seq<string>)
    ensures SumOf(BucketsOf(data, key, labelsOf), BucketHours) == SumOf(data, EntryHours)
    decreases |data|
  {
    if data != [] {
      var pre := data[..|data| - 1];
      var e := data[|data| - 1];
      BucketsTotal(pre, key, labelsOf);
      var bs := BucketsOf(pre, key, labelsOf);
      var idx := FindBucket(bs, key(e));
      var nb := Add(Lookup(bs, key(e), Bucket(key(e), labelsOf(e), 0.0)), e.hours);
      BucketsStep(data, key, labelsOf);
      if idx >= 0 {
        SumOfUpdate(bs, idx, nb, BucketHours);
      } else {
        assert (bs + [nb])[..|bs|] == bs;
      }
    }
  }

  // ---------------------------------------------------------------------------------------
  // Properties of the rows

  lemma NameInjective(a: GroupKey, b: GroupKey)
    ensures Name(a) == Name(b) ==> a == b
    ensures Name(a) != "hours"
  {
    if a != b {
      assert Name(a)[0] != Name(b)[0];
    }
    assert Name(a)[0] != 'h';
  }

  /** The same group always carries the same label (true of the labels of one entry). */
  predicate Consistent(groupOrder: seq<GroupKey>, labels: seq<string>)
    requires |labels| == |groupOrder|
  {
    forall i, j :: 0 <= i < |groupOrder| && 0 <= j < |groupOrder| && groupOrder[i] == groupOrder[j] ==> labels[i] == labels[j]
  }

  /** A grouped row holds the hours under `hours` and each group's label under the group's
      name, and nothing else. */
  lemma GroupedRowCells(groupOrder: seq<GroupKey>, labels: seq<string>, hours: real)
    requires |labels| == |groupOrder| && Consistent(groupOrder, labels)
    ensures var r := GroupedRow(groupOrder, labels, hours);
      && "hours" in r && r["hours"] == Number(hours)
      && (forall i :: 0 <= i < |groupOrder| ==> Name(groupOrder[i]) in r && r[Name(groupOrder[i])] == Text(labels[i]))
      && (forall k :: k in r ==> k == "hours" || exists i :: 0 <= i < |groupOrder| && k == Name(groupOrder[i]))
  {
    HoursCell(groupOrder, labels, hours);
    LabelCells(groupOrder, labels, hours);
    OnlyCells(groupOrder, labels, hours);
  }

  lemma {:induction false} HoursCell(groupOrder: seq<GroupKey>, labels: seq<string>, hours: real)
    requires |labels| == |groupOrder|
    ensures var r := GroupedRow(groupOrder, labels, hours);
      "hours" in r && r["hours"] == Number(hours)
    decreases |groupOrder|
  {
    if groupOrder != [] {
      var n := |groupOrder| - 1;
      HoursCell(groupOrder[..n], labels[..n], hours);
      NameInjective(groupOrder[n], groupOrder[n]);
    }
  }

  lemma {:induction false} LabelCells(groupOrder: seq<GroupKey>, labels: seq<string>, hours: real)
    requires |labels| == |groupOrder| && Consistent(groupOrder, labels)
    ensures var r := GroupedRow(groupOrder, labels, hours);
      forall i :: 0 <= i < |groupOrder| ==> Name(groupOrder[i]) in r && r[Name(groupOrder[i])] == Text(labels[i])
    decreases |groupOrder|
  {
    if groupOrder != [] {
      var n := |groupOrder| - 1;
      var go := groupOrder[..n];
      var ls := labels[..n];
      assert Consistent(go, ls);
      LabelCells(go, ls, hours);
      var r0 := GroupedRow(go, ls, hours);
      var r := GroupedRow(groupOrder, labels, hours);
      assert r == r0[Name(groupOrder[n]) := Text(labels[n])];
      forall i | 0 <= i < |groupOrder|
        ensures Name(groupOrder[i]) in r && r[Name(groupOrder[i])] == Text(labels[i])
      {
        if i < n {
          assert go[i] == groupOrder[i] && ls[i] == labels[i];
          NameInjective(groupOrder[i], groupOrder[n]);
        }
      }
    }
  }

  lemma {:induction false} OnlyCells(groupOrder: seq<GroupKey>, labels: seq<string>, hours: real)
    requires |labels| == |groupOrder|
    ensures var r := GroupedRow(groupOrder, labels, hours);
      forall k :: k in r ==> k == "hours" || exists i :: 0 <= i < |groupOrder| && k == Name(groupOrder[i])
    decreases |groupOrder|
  {
    if groupOrder != [] {
      var n := |groupOrder| - 1;
      var go := groupOrder[..n];
      OnlyCells(go, labels[..n], hours);
      var r := GroupedRow(groupOrder, labels, hours);
      forall k | k in r
        ensures k == "hours" || exists i :: 0 <= i < |groupOrder| && k == Name(groupOrder[i])
      {
        if k != Name(groupOrder[n]) && k != "hours" {
          assert k in GroupedRow(go, labels[..n], hours);
          var i :| 0 <= i < |go| && k == Name(go[i]);
          assert go[i] == groupOrder[i];
        }
      }
    }
  }

  lemma LabelsConsistent(e: TimesheetEntry, groupOrder: seq<GroupKey>, romeDay: string -> string)
    ensures Consistent(groupOrder, Labels(e, groupOrder, romeDay))
  {
  }

  /** The hours a table row shows (`row.hours`). */
  function RowHours(r: Row): real
  {
    if "hours" in r && r["hours"].Number? then r["hours"].n else 0.0
  }

  predicate AllConsistent(bs: seq<Bucket>, groupOrder: seq<GroupKey>)
    requires LabelsFit(bs, groupOrder)
  {
    forall i :: 0 <= i < |bs| ==> Consistent(groupOrder, bs[i].labels)
  }

  lemma {:induction false} GroupedRowsHours(bs: seq<Bucket>, groupOrder: seq<GroupKey>)
    requires LabelsFit(bs, groupOrder) && AllConsistent(bs, groupOrder)
    ensures SumOf(GroupedRows(bs, groupOrder), RowHours) == SumOf(bs, BucketHours)
    decreases |bs|
  {
    if bs != [] {
      var n := |bs| - 1;
      var rows := GroupedRows(bs, groupOrder);
      assert bs[..n] == bs[..n];
      GroupedRowsHours(bs[..n], groupOrder);
      assert rows[..n] == GroupedRows(bs[..n], groupOrder);
      GroupedRowCells(groupOrder, bs[n].labels, bs[n].hours);
    }
  }

  // ---------------------------------------------------------------------------------------
  // The comparator

  lemma {:induction false} LexTotal(a: seq<string>, b: seq<string>, le: (string, string) -> bool)
    requires TotalPreorder(le)
    ensures Lex(a, b, le) || Lex(b, a, le)
    decreases |a|
  {
    if a != [] && b != [] && Equiv(le, a[0], b[0]) {
      LexTotal(a[1..], b[1..], le);
    }
  }

  lemma {:induction false} LexTransitive(a: seq<string>, b: seq<string>, c: seq<string>, le: (string, string) -> bool)
    requires TotalPreorder(le) && Lex(a, b, le) && Lex(b, c, le)
    ensures Lex(a, c, le)
    decreases |a|
  {
    if a != [] && b != [] && c != [] {
      if Equiv(le, a[0], b[0]) && Equiv(le, b[0], c[0]) {
        LexTransitive(a[1..], b[1..], c[1..], le);
      }
    }
  }

  /** Comparing label lists group by group is a total preorder when the collation is. */
  lemma LexTotalPreorder(le: (string, string) -> bool)
    requires TotalPreorder(le)
    ensures TotalPreorder(LexOrder(le))
  {
    var lex := LexOrder(le);
    forall a, b
      ensures lex(a, b) || lex(b, a)
    {
      LexTotal(a, b, le);
    }
    forall a, b, c | lex(a, b) && lex(b, c)
      ensures lex(a, c)
    {
      LexTransitive(a, b, c, le);
    }
  }

  // ---------------------------------------------------------------------------------------
  // The view model

  /** Without groups the table is the raw entries in input order, four columns each. */
  lemma ViewRaw(data: seq<TimesheetEntry>, romeDay: string -> string, le: (string, string) -> bool)
    ensures var vm := ViewTable(data, [], romeDay, le);
      && vm.columns == ["project", "employee", "date", "hours"] && vm.headers == HEADERS
      && |vm.rows| == |data|
      && forall i :: 0 <= i < |data| ==> vm.rows[i] == RawRow(data[i], romeDay)
  {
  }

  lemma ConsistentAt(data: seq<TimesheetEntry>, groupOrder: seq<GroupKey>, romeDay: string -> string, i: nat)
    requires i < |BucketsOf(data, CompositeOf(groupOrder, romeDay), LabelsOf(groupOrder, romeDay))|
    ensures var b := BucketsOf(data, CompositeOf(groupOrder, romeDay), LabelsOf(groupOrder, romeDay))[i];
      |b.labels| == |groupOrder| && Consistent(groupOrder, b.labels)
  {
    var key := CompositeOf(groupOrder, romeDay);
    var labelsOf := LabelsOf(groupOrder, romeDay);
    var bs := BucketsOf(data, key, labelsOf);
    BucketsFirst(data, key, labelsOf);
    var j := FirstWith(data, bs[i].key, key);
    assert 0 <= j < |data| && bs[i].labels == labelsOf(data[j]);
    LabelsConsistent(data[j], groupOrder, romeDay);
  }

  lemma BucketsConsistent(data: seq<TimesheetEntry>, groupOrder: seq<GroupKey>, romeDay: string -> string)
    ensures var bs := ViewBuckets(data, groupOrder, romeDay);
      AllConsistent(bs, groupOrder)
  {
    var bs := ViewBuckets(data, groupOrder, romeDay);
    forall i | 0 <= i < |bs|
      ensures Consistent(groupOrder, bs[i].labels)
    {
      ConsistentAt(data, groupOrder, romeDay, i);
    }
  }

  /** With groups: the columns are the groups then `hours`; there is one row per distinct
      composite key; the rows are the buckets' rows, sorted by their labels group by group,
      and rows whose labels compare equal keep the buckets' insertion order. */
  lemma ViewGrouped(data: seq<TimesheetEntry>, groupOrder: seq<GroupKey>, romeDay: string -> string,
                    le: (string, string) -> bool, k: seq<string>)
    requires groupOrder != [] && TotalPreorder(le)
    ensures var vm := ViewTable(data, groupOrder, romeDay, le);
      var bs := ViewBuckets(data, groupOrder, romeDay);
      (vm.columns == Names(groupOrder) + ["hours"] && vm.headers == HEADERS
      && |vm.rows| == |Dedup(KeysIn(data, CompositeOf(groupOrder, romeDay)))|
      && multiset(vm.rows) == multiset(GroupedRows(bs, groupOrder))
      && SortedBy(vm.rows, RowKey(groupOrder), LexOrder(le))
      && Equivalents(vm.rows, RowKey(groupOrder), LexOrder(le), k)
         == Equivalents(GroupedRows(bs, groupOrder), RowKey(groupOrder), LexOrder(le), k))
  {
    var bs := BucketsOf(data, CompositeOf(groupOrder, romeDay), LabelsOf(groupOrder, romeDay));
    BucketsLabels(data, groupOrder, romeDay);
    BucketsKeys(data, CompositeOf(groupOrder, romeDay), LabelsOf(groupOrder, romeDay));
    assert |KeysOf(bs)| == |bs|;
    LexTotalPreorder(le);
    SortBySorted(GroupedRows(bs, groupOrder), RowKey(groupOrder), LexOrder(le));
    SortByStable(GroupedRows(bs, groupOrder), RowKey(groupOrder), LexOrder(le), k);
  }

  /** With groups, the rows together show all the input hours. */
  lemma ViewTotal(data: seq<TimesheetEntry>, groupOrder: seq<GroupKey>, romeDay: string -> string,
                  le: (string, string) -> bool)
    requires groupOrder != []
    ensures SumOf(ViewTable(data, groupOrder, romeDay, le).rows, RowHours) == SumOf(data, EntryHours)
  {
    var bs := BucketsOf(data, CompositeOf(groupOrder, romeDay), LabelsOf(groupOrder, romeDay));
    BucketsConsistent(data, groupOrder, romeDay);
    var rows := GroupedRows(bs, groupOrder);
    SumOfPermutation(ViewTable(data, groupOrder, romeDay, le).rows, rows, RowHours);
    GroupedRowsHours(bs, groupOrder);
    BucketsTotal(data, CompositeOf(groupOrder, romeDay), LabelsOf(groupOrder, romeDay));
  }

  /** Row `r` shows hours `h` and, under each group's name, the label entry `e` gives it. */
  predicate RowShows(r: Row, groupOrder: seq<GroupKey>, e: TimesheetEntry, h: real, romeDay: string -> string)
  {
    && "hours" in r && r["hours"] == Number(h)
    && forall i :: 0 <= i < |groupOrder| ==>
         Name(groupOrder[i]) in r && r[Name(groupOrder[i])] == Text(Access(groupOrder[i], e, romeDay).caption)
  }

  lemma BucketRowShows(data: seq<TimesheetEntry>, groupOrder: seq<GroupKey>, romeDay: string -> string, i: nat)
    requires i < |BucketsOf(data, CompositeOf(groupOrder, romeDay), LabelsOf(groupOrder, romeDay))|
    ensures var key := CompositeOf(groupOrder, romeDay);
      var b := ViewBuckets(data, groupOrder, romeDay)[i];
      var j := FirstWith(data, b.key, key);
      (0 <= j < |data| && b.key == Composite(data[j], groupOrder, romeDay)
      && RowShows(GroupedRow(groupOrder, b.labels, b.hours), groupOrder, data[j], HoursOf(data, b.key, key), romeDay))
  {
    var key := CompositeOf(groupOrder, romeDay);
    var bs := BucketsOf(data, key, LabelsOf(groupOrder, romeDay));
    BucketsLabels(data, groupOrder, romeDay);
    BucketsFirst(data, key, LabelsOf(groupOrder, romeDay));
    BucketsHours(data, key, LabelsOf(groupOrder, romeDay));
    var j := FirstWith(data, bs[i].key, key);
    LabelsConsistent(data[j], groupOrder, romeDay);
    GroupedRowCells(groupOrder, bs[i].labels, bs[i].hours);
  }

  /** Every grouped row shows the labels of the first entry with its composite key and the
      hours of all entries with that key. */
  lemma ViewRowsShow(data: seq<TimesheetEntry>, groupOrder: seq<GroupKey>, romeDay: string -> string,
                     le: (string, string) -> bool)
    requires groupOrder != []
    ensures var key := CompositeOf(groupOrder, romeDay);
      var rows := ViewTable(data, groupOrder, romeDay, le).rows;
      forall k :: 0 <= k < |rows| ==> exists j :: (0 <= j < |data|
        && FirstWith(data, Composite(data[j], groupOrder, romeDay), key) == j
        && RowShows(rows[k], groupOrder, data[j], HoursOf(data, Composite(data[j], groupOrder, romeDay), key), romeDay))
  {
    var rows := ViewTable(data, groupOrder, romeDay, le).rows;
    forall k | 0 <= k < |rows|
      ensures exists j :: (0 <= j < |data|
        && FirstWith(data, Composite(data[j], groupOrder, romeDay), CompositeOf(groupOrder, romeDay)) == j
        && RowShows(rows[k], groupOrder, data[j],
                    HoursOf(data, Composite(data[j], groupOrder, romeDay), CompositeOf(groupOrder, romeDay)), romeDay))
    {
      RowShowsAt(data, groupOrder, romeDay, le, k);
    }
  }

  /** The row at position `k`, when there is one, shows some entry's labels and hours. */
  lemma RowShowsAt(data: seq<TimesheetEntry>, groupOrder: seq<GroupKey>, romeDay: string -> string,
                   le: (string, string) -> bool, k: nat)
    requires groupOrder != []
    ensures var key := CompositeOf(groupOrder, romeDay);
      var rows := ViewTable(data, groupOrder, romeDay, le).rows;
      k < |rows| ==> exists j :: (0 <= j < |data|
        && FirstWith(data, Composite(data[j], groupOrder, romeDay), key) == j
        && RowShows(rows[k], groupOrder, data[j], HoursOf(data, Composite(data[j], groupOrder, romeDay), key), romeDay))
  {
    var key := CompositeOf(groupOrder, romeDay);
    var rows := ViewTable(data, groupOrder, romeDay, le).rows;
    if k < |rows| {
      var bs := ViewBuckets(data, groupOrder, romeDay);
      var grouped := GroupedRows(bs, groupOrder);
      assert rows[k] in multiset(grouped);
      var i :| 0 <= i < |grouped| && grouped[i] == rows[k];
      BucketRowShows(data, groupOrder, romeDay, i);
      var j := FirstWith(data, bs[i].key, key);
      assert Composite(data[j], groupOrder, romeDay) == bs[i].key;
    }
  }

  /** Every entry's composite key has a row, which shows the first such entry's labels. */
  lemma ViewRowsCover(data: seq<TimesheetEntry>, groupOrder: seq<GroupKey>, romeDay: string -> string,
                      le: (string, string) -> bool)
    requires groupOrder != []
    ensures var key := CompositeOf(groupOrder, romeDay);
      var rows := ViewTable(data, groupOrder, romeDay, le).rows;
      forall j :: 0 <= j < |data| ==> exists k :: (0 <= k < |rows|
        && RowShows(rows[k], groupOrder, data[FirstWith(data, Composite(data[j], groupOrder, romeDay), key)],
                    HoursOf(data, Composite(data[j], groupOrder, romeDay), key), romeDay))
  {
    var key := CompositeOf(groupOrder, romeDay);
    var bs := ViewBuckets(data, groupOrder, romeDay);
    BucketsKeys(data, key, LabelsOf(groupOrder, romeDay));
    var rows := ViewTable(data, groupOrder, romeDay, le).rows;
    var grouped := GroupedRows(bs, groupOrder);
    forall j | 0 <= j < |data|
      ensures exists k :: (0 <= k < |rows|
        && RowShows(rows[k], groupOrder, data[FirstWith(data, Composite(data[j], groupOrder, romeDay), key)],
                    HoursOf(data, Composite(data[j], groupOrder, romeDay), key), romeDay))
    {
      var c := Composite(data[j], groupOrder, romeDay);
      assert KeysIn(data, key)[j] == c;
      assert c in KeysOf(bs);
      var i :| 0 <= i < |bs| && KeysOf(bs)[i] == c;
      BucketRowShows(data, groupOrder, romeDay, i);
      assert grouped[i] in multiset(rows);
      var k :| 0 <= k < |rows| && rows[k] == grouped[i];
    }
  }
}
