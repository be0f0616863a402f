/** The request validation of the activity routes (api/src/routes/activities.ts): the body of
    `POST /` against `bodySchema`, and the `keys` / `dateBucket` query of `GET /aggregate`
    against `groupSpecSchema`; a rejected request is answered 400 before the database or the
    aggregation is reached. */
module ActivitiesRoute {
  import opened Common
  import opened Text
  import opened GroupKeys
  import opened Aggregate

  // ----- query parameters -----

  /** A query parameter as the query-string parser delivers it: absent, one string, a list (the
      parameter repeated), or a nested object (`keys[a]=...`). */
  datatype QueryValue = Missing | One(s: string) | Many(items: seq<string>) | Nested

  /** `String(value || '')`: absent is empty, a list is its items joined by commas, an object is
      `[object Object]`. */
  function QueryText(q: QueryValue): string
  {
    match q
    case Missing => ""
    case One(s) => s
    case Many(items) => Join(items, ",")
    case Nested => "[object Object]"
  }

  /** `.filter(Boolean)` on strings: the non-empty ones, in order. */
  function NonEmpty(parts: seq<string>): (r: seq<string>)
    ensures |r| <= |parts|
    ensures forall i :: 0 <= i < |r| ==> r[i] != "" && r[i] in parts
    ensures (forall i :: 0 <= i < |parts| ==> parts[i] != "") ==> r == parts
  {
    if parts == [] then []
    else if parts[0] == "" then NonEmpty(parts[1..])
    else [parts[0]] + NonEmpty(parts[1..])
  }

  /** The key list of line 30: the query text split at commas, empty pieces dropped. */
  function ParseKeys(q: QueryValue): (keys: seq<string>)
    ensures forall i :: 0 <= i < |keys| ==> keys[i] != "" && ',' !in keys[i]
  {
    NonEmpty(Split(QueryText(q), ','))
  }

  /** An absent or empty parameter gives no keys. */
  lemma ParseKeysEmpty(q: QueryValue)
    requires q == Missing || q == One("")
    ensures ParseKeys(q) == []
  {
  }

  /** Non-empty keys without commas, written with single commas between them, read back as they
      were. */
  lemma ParseKeysRoundTrip(keys: seq<string>)
    requires |keys| >= 1
    requires forall i :: 0 <= i < |keys| ==> keys[i] != "" && ',' !in keys[i]
    ensures ParseKeys(One(Join(keys, ","))) == keys
  {
    SplitJoin(keys, ',');
  }

  /** A list parameter reads as its items joined by commas. */
  lemma ParseKeysList(items: seq<string>)
    ensures ParseKeys(Many(items)) == ParseKeys(One(Join(items, ",")))
  {
  }

  /** Extra commas before the keys (or a leading one) are dropped. */
  lemma ParseKeysLeadingComma(s: string)
    ensures ParseKeys(One("," + s)) == ParseKeys(One(s))
  {
    assert ("," + s)[1..] == s;
  }

  /** Empty pieces from repeated and trailing commas are dropped: `,a,,b,` reads as `a`, `b`. */
  lemma ParseKeysEmptyPieces(a: string, b: string)
    requires a != "" && b != "" && ',' !in a && ',' !in b
    ensures ParseKeys(One("," + a + ",," + b + ",")) == [a, b]
  {
    SplitEmptyPieces(a, b);
    NonEmptyPieces(a, b);
  }

  lemma SplitEmptyPieces(a: string, b: string)
    requires ',' !in a && ',' !in b
    ensures Split("," + a + ",," + b + ",", ',') == ["", a, "", b, ""]
  {
    var c := [','];
    var t3 := b + c;
    var t2 := c + t3;
    var t1 := a + c + t2;
    assert "," + a + ",," + b + "," == [] + c + t1;
    SplitPrefix([], t1, ',');
    SplitPrefix(a, t2, ',');
    assert t2 == [] + c + t3;
    SplitPrefix([], t3, ',');
    assert t3 == b + c + [];
    SplitPrefix(b, [], ',');
    var p3 := Split(t3, ',');
    var p2 := Split(t2, ',');
    var p1 := Split(t1, ',');
    assert p3 == [b, ""];
    assert p2 == ["", b, ""];
    assert p1 == [a, "", b, ""];
  }

  lemma NonEmptyPieces(a: string, b: string)
    requires a != "" && b != ""
    ensures NonEmpty(["", a, "", b, ""]) == [a, b]
  {
    assert NonEmpty([""]) == [] by {
      assert [""][1..] == [];
    }
    assert NonEmpty([b, ""]) == [b] by {
      assert [b, ""][1..] == [""];
    }
    assert NonEmpty(["", b, ""]) == [b] by {
      assert ["", b, ""][1..] == [b, ""];
    }
    assert NonEmpty([a, "", b, ""]) == [a, b] by {
      assert [a, "", b, ""][1..] == ["", b, ""];
    }
    assert ["", a, "", b, ""][1..] == [a, "", b, ""];
  }

  // ----- the grouping specification -----

  /** `z.enum(['day','week','month','quarter'])`. */
  function ParseBucket(s: string): (r: Option<DateBucket>)
    ensures r.Some? <==> s in {"day", "week", "month", "quarter"}
  {
    if s == "day" then Some(Day)
    else if s == "week" then Some(Week)
    else if s == "month" then Some(Month)
    else if s == "quarter" then Some(Quarter)
    else None
  }

  /** `z.array(groupKeySchema)`: every element must be a key name. */
  function ParseKeyList(keys: seq<string>): (r: Option<seq<GroupKey>>)
    ensures r.Some? <==> forall i :: 0 <= i < |keys| ==> keys[i] in {"project", "employee", "date"}
    ensures r.Some? ==> |r.value| == |keys| && forall i :: 0 <= i < |keys| ==> Name(r.value[i]) == keys[i]
  {
    if keys == [] then Some([])
    else
      var head := Parse(keys[0]);
      var rest := ParseKeyList(keys[1..]);
      assert forall i :: 1 <= i < |keys| ==> keys[1..][i - 1] == keys[i];
      if head.Some? && rest.Some? then Some([head.value] + rest.value) else None
  }

  /** `groupSpecSchema.safeParse({ keys, dateBucket })`: accepted iff every key is a key name
      and `dateBucket` is absent or one of the four bucket names. */
  function ParseSpec(keys: seq<string>, dateBucket: QueryValue): (r: Option<GroupSpec>)
    ensures r.Some? <==>
      && (forall i :: 0 <= i < |keys| ==> keys[i] in {"project", "employee", "date"})
      && (dateBucket.Missing? || (dateBucket.One? && dateBucket.s in {"day", "week", "month", "quarter"}))
    ensures r.Some? ==> |r.value.keys| == |keys| && forall i :: 0 <= i < |keys| ==> Name(r.value.keys[i]) == keys[i]
    ensures r.Some? ==> r.value.dateBucket == (if dateBucket.One? then ParseBucket(dateBucket.s) else None)
  {
    var bucket: Option<Option<DateBucket>> :=
      match dateBucket
      case Missing => Some(None)
      case One(s) => if ParseBucket(s).Some? then Some(ParseBucket(s)) else None
      case _ => None;
    match (ParseKeyList(keys), bucket)
    case (Some(ks), Some(b)) => Some(GroupSpec(ks, b))
    case _ => None
  }

  /** Repeated keys are accepted. */
  lemma DuplicateKeysAccepted()
    ensures ParseSpec(["date", "date"], Missing) == Some(GroupSpec([Date, Date], None))
  {
    var ks := ParseKeyList(["date", "date"]);
    assert ks.Some?;
    assert Name(ks.value[0]) == "date" && Name(ks.value[1]) == "date";
    assert ks.value == [Date, Date];
  }

  /** An empty `dateBucket` parameter is a string outside the enum, and so rejected. */
  lemma EmptyBucketRejected(keys: seq<string>)
    ensures ParseSpec(keys, One("")) == None
  {
  }

  // ----- the activity body -----

  /** A JSON value of the request body, as far as the validators distinguish it. */
  datatype Json = JString(s: string) | JNumber(n: real) | JOther

  type Body = map<string, Json>

  /** One element of a pattern: a decimal digit (`\d`) or a literal character. */
  datatype PatternChar = AnyDigit | Exactly(c: char)

  /** `^\d{4}-\d{2}-\d{2}$`. */
  const DATE_PATTERN: seq<PatternChar> :=
    [AnyDigit, AnyDigit, AnyDigit, AnyDigit, Exactly('-'), AnyDigit, AnyDigit, Exactly('-'), AnyDigit, AnyDigit]

  /** A whole-string match of a pattern of single characters. */
  predicate Matches(pattern: seq<PatternChar>, s: string)
  {
    |s| == |pattern|
    && forall i :: 0 <= i < |s| ==>
      match pattern[i]
      case AnyDigit => IsDigit(s[i])
      case Exactly(c) => s[i] == c
  }

  /** The date pattern accepts exactly the `YYYY-MM-DD` shape that bucketing reads. */
  lemma DatePatternShape(s: string)
    ensures Matches(DATE_PATTERN, s) <==> IsoShaped(s)
  {
    if Matches(DATE_PATTERN, s) {
      assert forall i :: 0 <= i < 4 ==> s[..4][i] == s[i] && DATE_PATTERN[i] == AnyDigit;
      assert forall i :: 0 <= i < 2 ==> s[5..7][i] == s[5 + i] && DATE_PATTERN[5 + i] == AnyDigit;
      assert forall i :: 0 <= i < 2 ==> s[8..][i] == s[8 + i] && DATE_PATTERN[8 + i] == AnyDigit;
    }
    if IsoShaped(s) {
      forall i | 0 <= i < |s|
        ensures match DATE_PATTERN[i]
          case AnyDigit => IsDigit(s[i])
          case Exactly(c) => s[i] == c
      {
        if i < 4 {
          assert s[..4][i] == s[i];
        } else if 5 <= i < 7 {
          assert s[5..7][i - 5] == s[i];
        } else if 8 <= i {
          assert s[8..][i - 8] == s[i];
        }
      }
    }
  }

  lemma DatePatternShapes()
    ensures forall s :: Matches(DATE_PATTERN, s) <==> IsoShaped(s)
  {
    forall s
      ensures Matches(DATE_PATTERN, s) <==> IsoShaped(s)
    {
      DatePatternShape(s);
    }
  }

  /** `z.string().min(1)`. */
  predicate NonEmptyString(v: Json)
  {
    v.JString? && |v.s| >= 1
  }

  /** `bodySchema.safeParse(body)`: the four fields checked, other fields dropped. */
  function ParseBody(body: Body): (r: Option<Activity>)
    ensures r.Some? <==>
      && "project" in body && NonEmptyString(body["project"])
      && "employee" in body && NonEmptyString(body["employee"])
      && "date" in body && body["date"].JString? && IsoShaped(body["date"].s)
      && "hours" in body && body["hours"].JNumber? && body["hours"].n >= 0.0
    ensures r.Some? ==> r.value == Activity(body["project"].s, body["employee"].s, body["date"].s, body["hours"].n)
  {
    DatePatternShapes();
    if ("project" in body && NonEmptyString(body["project"]))
      && ("employee" in body && NonEmptyString(body["employee"]))
      && ("date" in body && body["date"].JString? && Matches(DATE_PATTERN, body["date"].s))
      && ("hours" in body && body["hours"].JNumber? && body["hours"].n >= 0.0)
    then Some(Activity(body["project"].s, body["employee"].s, body["date"].s, body["hours"].n))
    else None
  }

  /** The month and day are not range-checked: `2024-13-45` is accepted. */
  lemma UncheckedDateAccepted()
    ensures ParseBody(map["project" := JString("P"), "employee" := JString("E"),
                          "date" := JString("2024-13-45"), "hours" := JNumber(1.5)]).Some?
  {
    var d := "2024-13-45";
    assert IsoShaped(d) by {
      assert d[..4] == "2024" && d[5..7] == "13" && d[8..] == "45";
    }
  }

  /** Every accepted date can be bucketed by day, month or quarter. */
  lemma AcceptedDateBucketable(body: Body, mode: Option<DateBucket>)
    requires ParseBody(body).Some?
    requires mode != Some(Week)
    ensures Bucketable(ParseBody(body).value.date, mode)
  {
  }

  // ----- the handlers -----

  /** What `POST /` does: answer 400, or create the parsed activity (and answer 201 with it). */
  datatype PostOutcome = PostRejected | Create(activity: Activity)

  function PostActivity(body: Body): (r: PostOutcome)
    ensures r.PostRejected? <==> ParseBody(body).None?
    ensures r.Create? ==> r.activity == ParseBody(body).value
  {
    match ParseBody(body)
    case None => PostRejected
    case Some(a) => Create(a)
  }

  /** What `GET /aggregate` does: answer 400, or aggregate the stored activities. */
  datatype AggregateOutcome = AggregateRejected | Aggregated(rows: seq<FlatRow>)

  /** The handler, with the stored activities and the collation of group values as parameters.
      The stored dates must be ones the bucketing is modelled on. */
  method GetAggregate(keysParam: QueryValue, dateBucketParam: QueryValue, stored: seq<Activity>,
                      le: (string, string) -> bool)
    returns (r: AggregateOutcome)
    requires var spec := ParseSpec(ParseKeys(keysParam), dateBucketParam);
      spec.Some? ==> DatesBucketable(stored, spec.value.dateBucket)
    ensures r.AggregateRejected? <==> ParseSpec(ParseKeys(keysParam), dateBucketParam).None?
    ensures r.Aggregated? ==> r.rows == Rows(BuildTree(stored, ParseSpec(ParseKeys(keysParam), dateBucketParam).value), le)
  {
    var keys := ParseKeys(keysParam);
    var specParse := ParseSpec(keys, dateBucketParam);
    if specParse.None? {
      return AggregateRejected;
    }
    var rows := Aggregate.Aggregate(stored, specParse.value, le);
    return Aggregated(rows);
  }
}
