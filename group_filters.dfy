/** The two grouping selectors of the timesheet page
    (web/src/app/components/group-filters/group-filters.component.ts): the selected keys, kept in
    step with the `group1` / `group2` query parameters of the address. The router and the
    `EventEmitter` outputs are modelled as a log of events the component produces. */
module GroupFilters {
  import opened Common
  import opened GroupKeys

  /** The query parameters of the address, each with one value. */
  type Params = map<string, string>

  /** What the component sends out: a change of either selection, a navigation to new query
      parameters (replacing the current address), or an export request. */
  datatype Event =
    | Group1Changed(key: Option<GroupKey>)
    | Group2Changed(key: Option<GroupKey>)
    | Navigated(params: Params)
    | CsvRequested
    | PdfRequested

  const GROUP1 := "group1"
  const GROUP2 := "group2"

  /** `params.get(name)`: the value of a query parameter, if present. */
  function Get(params: Params, name: string): (r: Option<string>)
    ensures r.Some? <==> name in params
    ensures r.Some? ==> r.value == params[name]
  {
    if name in params then Some(params[name]) else None
  }

  /** `parseGroupKey`: an absent or empty value, or a text other than the three key names, is
      no key; a key name is that key. */
  function ParseGroupKey(value: Option<string>): (r: Option<GroupKey>)
    ensures value.None? ==> r.None?
    ensures value.Some? ==> r == Parse(value.value)
    ensures r.Some? <==> value.Some? && value.value in {"project", "employee", "date"}
    ensures r.Some? ==> Name(r.value) == value.value
  {
    if value.None? || value.value == "" then None else Parse(value.value)
  }

  /** A key as a query-parameter value. */
  function Spell(k: Option<GroupKey>): (r: Option<string>)
    ensures r.Some? <==> k.Some?
  {
    match k
    case None => None
    case Some(key) => Some(Name(key))
  }

  /** The selection invariant: a second key only under a first one, and a different one. */
  predicate Consistent(g1: Option<GroupKey>, g2: Option<GroupKey>)
  {
    g2.Some? ==> g1.Some? && g2 != g1
  }

  /** The normalised selection of the raw parameters: the first key as parsed, the second one
      only when both parse and differ. */
  function Normalize(raw1: Option<string>, raw2: Option<string>): (r: (Option<GroupKey>, Option<GroupKey>))
    ensures Consistent(r.0, r.1)
    ensures r.0 == ParseGroupKey(raw1)
    ensures r.1.Some? <==> r.0.Some? && ParseGroupKey(raw2).Some? && ParseGroupKey(raw2) != r.0
    ensures r.1.Some? ==> r.1 == ParseGroupKey(raw2)
  {
    var n1 := ParseGroupKey(raw1);
    var p2 := ParseGroupKey(raw2);
    var n2 := if n1.Some? && p2.Some? && p2 != n1 then p2 else None;
    (n1, n2)
  }

  /** The handler navigates when the raw parameters differ from the ones the normalised
      selection calls for (`desiredGroup1`, `desiredGroup2`). */
  predicate NavigationNeeded(raw1: Option<string>, raw2: Option<string>)
  {
    var n := Normalize(raw1, raw2);
    var desired1 := n.0;
    var desired2 := if n.0.Some? && n.1.Some? then n.1 else None;
    raw1 != Spell(desired1) || raw2 != Spell(desired2)
  }

  /** Raw parameters already in normal form: each absent or a key name, the second only under a
      first one and naming a different key. */
  predicate Canonical(raw1: Option<string>, raw2: Option<string>)
  {
    && (raw1.Some? ==> raw1.value in {"project", "employee", "date"})
    && (raw2.Some? ==> raw1.Some? && raw2.value in {"project", "employee", "date"} && raw2 != raw1)
  }

  /** The handler navigates exactly when the raw parameters are not in normal form. */
  lemma NavigationNeededIff(raw1: Option<string>, raw2: Option<string>)
    ensures NavigationNeeded(raw1, raw2) <==> !Canonical(raw1, raw2)
  {
    var n := Normalize(raw1, raw2);
    if Canonical(raw1, raw2) {
      if raw2.Some? {
        assert Name(ParseGroupKey(raw2).value) != Name(ParseGroupKey(raw1).value);
      }
    }
  }

  /** Normalising the spelling of a normalised selection gives it back. */
  lemma NormalizeIdempotent(raw1: Option<string>, raw2: Option<string>)
    ensures var n := Normalize(raw1, raw2);
      Normalize(Spell(n.0), Spell(n.1)) == n && !NavigationNeeded(Spell(n.0), Spell(n.1))
  {
    var n := Normalize(raw1, raw2);
    if n.0.Some? {
      ParseName(n.0.value);
    }
    if n.1.Some? {
      ParseName(n.1.value);
    }
  }

  /** `updateQueryParams` as a specification: every parameter other than `group1` and `group2`
      kept as it was, `group1` present exactly when a first key is given, `group2` exactly when
      both keys are, each spelled as its key. */
  function QueryParams(base: Params, g1: Option<GroupKey>, g2: Option<GroupKey>): (r: Params)
    ensures forall name :: name != GROUP1 && name != GROUP2 ==> (name in r <==> name in base)
    ensures forall name :: name in r && name != GROUP1 && name != GROUP2 ==> r[name] == base[name]
    ensures Get(r, GROUP1) == Spell(g1)
    ensures Get(r, GROUP2) == (if g1.Some? then Spell(g2) else None)
  {
    var names := (base.Keys - {GROUP1, GROUP2})
      + (if g1.Some? then {GROUP1} else {})
      + (if g1.Some? && g2.Some? then {GROUP2} else {});
    map name | name in names ::
      if name == GROUP1 then Name(g1.value)
      else if name == GROUP2 then Name(g2.value)
      else base[name]
  }

  /** Parameters written for a consistent selection are in normal form and read back as that
      selection, so reading them again causes no navigation. */
  lemma QueryParamsFixedPoint(base: Params, g1: Option<GroupKey>, g2: Option<GroupKey>)
    requires Consistent(g1, g2)
    ensures var p := QueryParams(base, g1, g2);
      && Canonical(Get(p, GROUP1), Get(p, GROUP2))
      && Normalize(Get(p, GROUP1), Get(p, GROUP2)) == (g1, g2)
      && !NavigationNeeded(Get(p, GROUP1), Get(p, GROUP2))
  {
    var p := QueryParams(base, g1, g2);
    if g1.Some? {
      ParseName(g1.value);
    }
    if g2.Some? {
      ParseName(g2.value);
      assert Name(g2.value) != Name(g1.value) by {
        ParseName(g1.value);
      }
    }
    NavigationNeededIff(Get(p, GROUP1), Get(p, GROUP2));
  }

  /** A selection the component does not keep consistent by itself makes the written parameters
      drop the second key: with both keys equal, the address ends up with `group1` only. */
  lemma QueryParamsSameKeys(base: Params, k: GroupKey)
    ensures var p := QueryParams(base, Some(k), Some(k));
      NavigationNeeded(Get(p, GROUP1), Get(p, GROUP2))
  {
    var p := QueryParams(base, Some(k), Some(k));
    NavigationNeededIff(Get(p, GROUP1), Get(p, GROUP2));
  }

  /** The component: the input-backed fields `_group1` / `_group2`, the current selection, the
      query parameters of the current route (set by the router, read here) and the events
      produced so far. */
  class Component {
    var group1: Option<GroupKey>
    var group2: Option<GroupKey>
    var current1: Option<GroupKey>
    var current2: Option<GroupKey>
    var route: Params
    var log: seq<Event>

    /** The fields behind the inputs always equal the current selection. */
    predicate Mirrored()
      reads this
    {
      group1 == current1 && group2 == current2
    }

    /** The selection invariant of the current state. */
    predicate Valid()
      reads this
    {
      Mirrored() && Consistent(current1, current2)
    }

    constructor(route: Params)
      ensures Valid()
      ensures current1 == None && current2 == None && this.route == route && log == []
    {
      group1 := None;
      group2 := None;
      current1 := None;
      current2 := None;
      this.route := route;
      log := [];
    }

    /** The `group1` input setter: takes the value as given, without checking it. */
    method SetGroup1(value: Option<GroupKey>)
      modifies this
      ensures group1 == value && current1 == value
      ensures group2 == old(group2) && current2 == old(current2) && route == old(route) && log == old(log)
    {
      group1 := value;
      current1 := value;
    }

    /** The `group2` input setter: takes the value as given, without checking it. */
    method SetGroup2(value: Option<GroupKey>)
      modifies this
      ensures group2 == value && current2 == value
      ensures group1 == old(group1) && current1 == old(current1) && route == old(route) && log == old(log)
    {
      group2 := value;
      current2 := value;
    }

    /** `updateQueryParams`: copy the route's parameters, set or delete `group1` and `group2`,
        and navigate there. */
    method UpdateQueryParams(g1: Option<GroupKey>, g2: Option<GroupKey>)
      modifies this
      ensures log == old(log) + [Navigated(QueryParams(route, g1, g2))]
      ensures group1 == old(group1) && group2 == old(group2)
      ensures current1 == old(current1) && current2 == old(current2) && route == old(route)
    {
      var params := route;
      if g1.Some? {
        params := params[GROUP1 := Name(g1.value)];
      } else {
        params := params - {GROUP1};
      }
      if g1.Some? && g2.Some? {
        params := params[GROUP2 := Name(g2.value)];
      } else {
        params := params - {GROUP2};
      }
      assert params == QueryParams(route, g1, g2);
      log := log + [Navigated(params)];
    }

    /** The query-parameter subscription of `ngOnInit`, run when the router moves to an address
        with query parameters `params`: the router first makes them the route's snapshot, then
        the handler normalises them, adopts and announces each key that changed, and navigates
        if the address is not in normal form, keeping that address's other parameters. */
    method OnQueryParams(params: Params)
      modifies this
      ensures var raw1 := Get(params, GROUP1);
        var raw2 := Get(params, GROUP2);
        var n := Normalize(raw1, raw2);
        && current1 == n.0 && current2 == n.1
        && group1 == (if n.0 != old(current1) then n.0 else old(group1))
        && group2 == (if n.1 != old(current2) then n.1 else old(group2))
        && route == params
        && log == old(log)
          + (if n.0 != old(current1) then [Group1Changed(n.0)] else [])
          + (if n.1 != old(current2) then [Group2Changed(n.1)] else [])
          + (if NavigationNeeded(raw1, raw2) then [Navigated(QueryParams(params, n.0, n.1))] else [])
      ensures Consistent(current1, current2)
      ensures old(Mirrored()) ==> Valid()
    {
      route := params;
      var raw1 := Get(route, GROUP1);
      var raw2 := Get(route, GROUP2);
      var group1Param := ParseGroupKey(raw1);
      var group2Param := ParseGroupKey(raw2);
      var normalized1 := group1Param;
      var normalized2 := if normalized1.Some? && group2Param.Some? && group2Param != normalized1 then group2Param else None;
      assert (normalized1, normalized2) == Normalize(raw1, raw2);
      if normalized1 != current1 {
        current1 := normalized1;
        group1 := normalized1;
        log := log + [Group1Changed(normalized1)];
      }
      if normalized2 != current2 {
        current2 := normalized2;
        group2 := normalized2;
        log := log + [Group2Changed(normalized2)];
      }
      var desired1 := normalized1;
      var desired2 := if normalized1.Some? && normalized2.Some? then normalized2 else None;
      assert NavigationNeeded(raw1, raw2) <==> raw1 != Spell(desired1) || raw2 != Spell(desired2);
      ghost var announced := log;
      ghost var target := QueryParams(route, normalized1, normalized2);
      if raw1 != Spell(desired1) || raw2 != Spell(desired2) {
        UpdateQueryParams(normalized1, normalized2);
        assert log == announced + [Navigated(target)];
      }
    }

    /** `onChangeGroup1`: select the first key; clearing it clears the second one too, and
        choosing the key already second clears the second one. */
    method OnChangeGroup1(v: Option<GroupKey>)
      modifies this
      ensures current1 == v && group1 == v
      ensures current2 == (if v.None? || old(current2) == v then None else old(current2))
      ensures group2 == (if (v.None? && old(current2).Some?) || (v.Some? && old(current2) == v) then None else old(group2))
      ensures route == old(route)
      ensures v.None? ==>
        log == old(log) + (if old(current2).Some? then [Group2Changed(None)] else [])
          + [Group1Changed(None), Navigated(QueryParams(route, None, None))]
      ensures v.Some? ==>
        log == old(log) + [Group1Changed(v)] + (if old(current2) == v then [Group2Changed(None)] else [])
          + [Navigated(QueryParams(route, current1, current2))]
      ensures Consistent(current1, current2)
      ensures old(Mirrored()) ==> Valid()
    {
      current1 := v;
      group1 := v;
      if v.None? {
        if current2.Some? {
          current2 := None;
          group2 := None;
          log := log + [Group2Changed(None)];
        }
        log := log + [Group1Changed(None)];
        UpdateQueryParams(None, None);
        return;
      }
      log := log + [Group1Changed(v)];
      if current2 == v {
        current2 := None;
        group2 := None;
        log := log + [Group2Changed(None)];
      }
      UpdateQueryParams(current1, current2);
    }

    /** `onChangeGroup2`: select the second key; without a first key, or equal to it, the
        second key becomes none. */
    method OnChangeGroup2(v: Option<GroupKey>)
      modifies this
      ensures current1 == old(current1) && group1 == old(group1) && route == old(route)
      ensures current2 == (if old(current1).None? || v == old(current1) then None else v)
      ensures group2 == current2
      ensures log == old(log) + [Group2Changed(current2), Navigated(QueryParams(route, current1, current2))]
      ensures Consistent(current1, current2)
      ensures old(Mirrored()) ==> Valid()
    {
      if current1.None? {
        current2 := None;
        group2 := None;
        log := log + [Group2Changed(None)];
        UpdateQueryParams(current1, current2);
        return;
      }
      if v.Some? && v == current1 {
        current2 := None;
      } else {
        current2 := v;
      }
      group2 := current2;
      log := log + [Group2Changed(current2)];
      UpdateQueryParams(current1, current2);
    }

    /** `clear`: both keys become none, both changes are announced and the address loses both
        parameters. */
    method Clear()
      modifies this
      ensures current1 == None && current2 == None && group1 == None && group2 == None
      ensures route == old(route)
      ensures log == old(log) + [Group1Changed(None), Group2Changed(None), Navigated(QueryParams(route, None, None))]
      ensures Valid()
    {
      current1 := None;
      current2 := None;
      group1 := None;
      group2 := None;
      log := log + [Group1Changed(None), Group2Changed(None)];
      UpdateQueryParams(None, None);
    }

    /** `triggerCsv`. */
    method TriggerCsv()
      modifies this
      ensures log == old(log) + [CsvRequested]
      ensures group1 == old(group1) && group2 == old(group2) && route == old(route)
      ensures current1 == old(current1) && current2 == old(current2)
    {
      log := log + [CsvRequested];
    }

    /** `triggerPdf`. */
    method TriggerPdf()
      modifies this
      ensures log == old(log) + [PdfRequested]
      ensures group1 == old(group1) && group2 == old(group2) && route == old(route)
      ensures current1 == old(current1) && current2 == old(current2)
    {
      log := log + [PdfRequested];
    }
  }
}
