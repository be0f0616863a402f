/** The client-side id allocation of web/src/app/service/timesheet.service.ts: the server may send
    a project or employee as a bare name or as `{ id?, name }`, and the service gives every name a
    numeric id, caching it per kind with a counter for new ids. */
module TimesheetService {
  import opened Common
  import opened Model

  /** `ApiEntity`: a bare name, or a named object with an optional id. */
  datatype ApiEntity = Plain(name: string) | Named(id: Option<int>, name: string)

  datatype ApiActivity = ApiActivity(project: ApiEntity, employee: ApiEntity, date: string, hours: real)

  /** Which table a lookup goes to (`cache === this.projectIdMap`). */
  datatype Kind = ProjectKind | EmployeeKind

  /** One name-to-id table with the next id it hands out. */
  datatype IdTable = IdTable(ids: map<string, int>, next: int)

  function Max(a: int, b: int): int
  {
    if a >= b then a else b
  }

  /** Every cached id lies below the counter, so the counter's value is unused. */
  predicate Fresh(t: IdTable)
  {
    forall name :: name in t.ids ==> t.ids[name] < t.next
  }

  /** Distinct names have distinct ids. */
  predicate Injective(ids: map<string, int>)
  {
    forall a, b :: a in ids && b in ids && a != b ==> ids[a] != ids[b]
  }

  /** `ensureId` on one table: a cached name keeps its id and nothing changes; a new name draws
      the counter's value, which is cached, and the counter moves on by one. */
  function Allocate(t: IdTable, name: string): (r: (int, IdTable))
    ensures name in r.1.ids && r.1.ids[name] == r.0
    ensures name in t.ids ==> r == (t.ids[name], t)
    ensures name !in t.ids ==> r.0 == t.next && r.1 == IdTable(t.ids[name := t.next], t.next + 1)
  {
    if name in t.ids then (t.ids[name], t) else (t.next, IdTable(t.ids[name := t.next], t.next + 1))
  }

  /** `toNamedEntity` on one table. A bare name goes through `ensureId`. A named object takes its
      own id when it has one (and `ensureId` otherwise), that id is cached under the name, and
      the counter is raised past it when it was not already. */
  function Resolve(t: IdTable, source: ApiEntity): (r: (int, IdTable))
    ensures source.name in r.1.ids && r.1.ids[source.name] == r.0
    ensures r.1.ids.Keys == t.ids.Keys + {source.name}
    ensures forall name :: name in t.ids && name != source.name ==> r.1.ids[name] == t.ids[name]
    ensures r.1.next >= t.next
    ensures source.Named? && source.id.Some? ==> r.0 == source.id.value && r.1.next > r.0
  {
    match source
    case Plain(name) => Allocate(t, name)
    case Named(id, name) =>
      var a := if id.Some? then (id.value, t) else Allocate(t, name);
      var resolved := a.0;
      var t1 := IdTable(a.1.ids[name := resolved], a.1.next);
      if resolved >= t1.next then (resolved, IdTable(t1.ids, Max(t1.next, resolved + 1))) else (resolved, t1)
  }

  /** Resolving keeps every cached id below the counter. */
  lemma ResolveKeepsFresh(t: IdTable, source: ApiEntity)
    requires Fresh(t)
    ensures Fresh(Resolve(t, source).1)
  {
    var r := Resolve(t, source);
    forall name | name in r.1.ids
      ensures r.1.ids[name] < r.1.next
    {
      if name == source.name {
        if source.Named? && source.id.None? && source.name !in t.ids {
          assert r.0 == t.next;
        }
      } else {
        assert r.1.ids[name] == t.ids[name];
      }
    }
  }

  /** With every cached id below the counter, a bare name keeps the table injective: a new id is
      the counter's value, which no name holds. */
  lemma PlainKeepsInjective(t: IdTable, name: string)
    requires Fresh(t) && Injective(t.ids)
    ensures Injective(Resolve(t, Plain(name)).1.ids)
  {
    var ids := Resolve(t, Plain(name)).1.ids;
    forall a, b | a in ids && b in ids && a != b
      ensures ids[a] != ids[b]
    {
      if name !in t.ids && (a == name || b == name) {
        var other := if a == name then b else a;
        assert ids[other] == t.ids[other] < t.next;
      }
    }
  }

  /** A named object's own id is cached under its name as it is, even when another name already
      holds that id: named objects with explicit ids can break injectivity. */
  lemma ExplicitIdCollision()
    ensures var t := IdTable(map["Alpha" := 1], 2);
      Fresh(t) && Injective(t.ids) && !Injective(Resolve(t, Named(Some(1), "Beta")).1.ids)
  {
    var t := IdTable(map["Alpha" := 1], 2);
    var ids := Resolve(t, Named(Some(1), "Beta")).1.ids;
    assert ids["Alpha"] == ids["Beta"];
  }

  /** Resolving the same source again gives the same id and changes nothing. */
  lemma ResolveIdempotent(t: IdTable, source: ApiEntity)
    ensures var r := Resolve(t, source);
      Resolve(r.1, source) == r
  {
    var r := Resolve(t, source);
    var name := source.name;
    assert name in r.1.ids && r.1.ids[name] == r.0;
    assert r.1.ids[name := r.0] == r.1.ids;
    if source.Named? {
      if source.id.None? && name !in t.ids {
        assert r.0 == t.next;
      }
      assert r.0 < r.1.next;
    }
  }

  /** `tables`: the project table and the employee table. */
  datatype Tables = Tables(projects: IdTable, employees: IdTable)

  /** `mapToTimesheetEntry` on the two tables: the project goes through the project table, then
      the employee through the employee table; date and hours are copied. */
  function MapEntry(ts: Tables, item: ApiActivity): (r: (TimesheetEntry, Tables))
    ensures r.0.project.name == item.project.name && r.0.employee.name == item.employee.name
    ensures r.0.date == item.date && r.0.hours == item.hours
    ensures (r.0.project.id, r.1.projects) == Resolve(ts.projects, item.project)
    ensures (r.0.employee.id, r.1.employees) == Resolve(ts.employees, item.employee)
  {
    var p := Resolve(ts.projects, item.project);
    var e := Resolve(ts.employees, item.employee);
    (TimesheetEntry(NamedEntity(p.0, item.project.name), NamedEntity(e.0, item.employee.name), item.date, item.hours),
     Tables(p.1, e.1))
  }

  /** `list.map(item => this.mapToTimesheetEntry(item))`: the items in order, threading the
      tables through. */
  function MapEntries(ts: Tables, items: seq<ApiActivity>): (r: (seq<TimesheetEntry>, Tables))
    ensures |r.0| == |items|
    decreases |items|
  {
    if items == [] then ([], ts)
    else
      var front := MapEntries(ts, items[..|items| - 1]);
      var last := MapEntry(front.1, items[|items| - 1]);
      (front.0 + [last.0], last.1)
  }

  predicate AllPlain(items: seq<ApiActivity>)
  {
    forall i :: 0 <= i < |items| ==> items[i].project.Plain? && items[i].employee.Plain?
  }

  predicate TablesOk(ts: Tables)
  {
    Fresh(ts.projects) && Fresh(ts.employees) && Injective(ts.projects.ids) && Injective(ts.employees.ids)
  }

  /** Over a list of bare names, the tables stay fresh and injective and every mapped entry
      carries the id its names finally have in the tables. */
  lemma {:induction false} MapEntriesPlain(ts: Tables, items: seq<ApiActivity>)
    requires TablesOk(ts) && AllPlain(items)
    ensures var r := MapEntries(ts, items);
      && TablesOk(r.1)
      && (forall i :: 0 <= i < |items| ==>
           && r.0[i].project.name in r.1.projects.ids && r.1.projects.ids[r.0[i].project.name] == r.0[i].project.id
           && r.0[i].employee.name in r.1.employees.ids && r.1.employees.ids[r.0[i].employee.name] == r.0[i].employee.id)
    decreases |items|
  {
    if items != [] {
      var front := items[..|items| - 1];
      assert AllPlain(front) by {
        forall i | 0 <= i < |front|
          ensures front[i].project.Plain? && front[i].employee.Plain?
        {
          assert front[i] == items[i];
        }
      }
      MapEntriesPlain(ts, front);
      var f := MapEntries(ts, front);
      var item := items[|items| - 1];
      var last := MapEntry(f.1, item);
      ResolveKeepsFresh(f.1.projects, item.project);
      ResolveKeepsFresh(f.1.employees, item.employee);
      PlainKeepsInjective(f.1.projects, item.project.name);
      PlainKeepsInjective(f.1.employees, item.employee.name);
      var r := MapEntries(ts, items);
      assert r == (f.0 + [last.0], last.1);
      forall i | 0 <= i < |items|
        ensures && r.0[i].project.name in r.1.projects.ids && r.1.projects.ids[r.0[i].project.name] == r.0[i].project.id
                && r.0[i].employee.name in r.1.employees.ids && r.1.employees.ids[r.0[i].employee.name] == r.0[i].employee.id
      {
        if i < |front| {
          assert r.0[i] == f.0[i];
        }
      }
    }
  }

  /** Over a list of bare names, entries with different project names have different project
      ids, and likewise for employees. */
  lemma DistinctNamesDistinctIds(ts: Tables, items: seq<ApiActivity>, i: nat, j: nat)
    requires TablesOk(ts) && AllPlain(items)
    requires i < |items| && j < |items|
    ensures var entries := MapEntries(ts, items).0;
      && (entries[i].project.name != entries[j].project.name ==> entries[i].project.id != entries[j].project.id)
      && (entries[i].employee.name != entries[j].employee.name ==> entries[i].employee.id != entries[j].employee.id)
  {
    MapEntriesPlain(ts, items);
  }

  /** The counters of a list of items never go down. */
  lemma {:induction false} MapEntriesMonotone(ts: Tables, items: seq<ApiActivity>)
    ensures var r := MapEntries(ts, items);
      r.1.projects.next >= ts.projects.next && r.1.employees.next >= ts.employees.next
    decreases |items|
  {
    if items != [] {
      MapEntriesMonotone(ts, items[..|items| - 1]);
    }
  }

  /** The service's caches and counters (`projectIdMap`, `employeeIdMap`, `nextProjectId`,
      `nextEmployeeId`). */
  class Service {
    var projectIds: map<string, int>
    var employeeIds: map<string, int>
    var nextProjectId: int
    var nextEmployeeId: int

    constructor()
      ensures projectIds == map[] && employeeIds == map[] && nextProjectId == 1 && nextEmployeeId == 1
      ensures Valid()
    {
      projectIds := map[];
      employeeIds := map[];
      nextProjectId := 1;
      nextEmployeeId := 1;
    }

    function Table(kind: Kind): IdTable
      reads this
    {
      match kind
      case ProjectKind => IdTable(projectIds, nextProjectId)
      case EmployeeKind => IdTable(employeeIds, nextEmployeeId)
    }

    function State(): Tables
      reads this
    {
      Tables(Table(ProjectKind), Table(EmployeeKind))
    }

    /** Both counters lie above every id cached for their kind. */
    predicate Valid()
      reads this
    {
      Fresh(Table(ProjectKind)) && Fresh(Table(EmployeeKind))
    }

    /** `peekNextId`: the counter of a kind, above every id cached for that kind. */
    function PeekNextId(kind: Kind): (r: int)
      reads this
      ensures Valid() ==> forall name :: name in Table(kind).ids ==> Table(kind).ids[name] < r
    {
      if kind == ProjectKind then nextProjectId else nextEmployeeId
    }

    /** Cache an id for a name of one kind (`cache.set`). */
    method SetId(kind: Kind, name: string, id: int)
      modifies this
      ensures Table(kind) == IdTable(old(Table(kind)).ids[name := id], old(Table(kind)).next)
      ensures kind == ProjectKind ==> Table(EmployeeKind) == old(Table(EmployeeKind))
      ensures kind == EmployeeKind ==> Table(ProjectKind) == old(Table(ProjectKind))
    {
      if kind == ProjectKind {
        projectIds := projectIds[name := id];
      } else {
        employeeIds := employeeIds[name := id];
      }
    }

    /** The `nextId` callback: return the counter of a kind and increment it (`next++`). */
    method NextId(kind: Kind) returns (id: int)
      modifies this
      ensures id == old(Table(kind)).next
      ensures Table(kind) == IdTable(old(Table(kind)).ids, id + 1)
      ensures kind == ProjectKind ==> Table(EmployeeKind) == old(Table(EmployeeKind))
      ensures kind == EmployeeKind ==> Table(ProjectKind) == old(Table(ProjectKind))
    {
      if kind == ProjectKind {
        id := nextProjectId;
        nextProjectId := nextProjectId + 1;
      } else {
        id := nextEmployeeId;
        nextEmployeeId := nextEmployeeId + 1;
      }
    }

    /** `ensureId`. */
    method EnsureId(name: string, kind: Kind) returns (id: int)
      modifies this
      ensures (id, Table(kind)) == Allocate(old(Table(kind)), name)
      ensures kind == ProjectKind ==> Table(EmployeeKind) == old(Table(EmployeeKind))
      ensures kind == EmployeeKind ==> Table(ProjectKind) == old(Table(ProjectKind))
    {
      if name !in Table(kind).ids {
        var newId := NextId(kind);
        SetId(kind, name, newId);
      }
      id := Table(kind).ids[name];
    }

    /** `bumpNextId`: raise the counter of a kind to at least `value`. */
    method BumpNextId(kind: Kind, value: int)
      modifies this
      ensures Table(kind) == IdTable(old(Table(kind)).ids, Max(old(Table(kind)).next, value))
      ensures Table(kind).next >= old(Table(kind)).next && Table(kind).next >= value
      ensures kind == ProjectKind ==> Table(EmployeeKind) == old(Table(EmployeeKind))
      ensures kind == EmployeeKind ==> Table(ProjectKind) == old(Table(ProjectKind))
    {
      if kind == ProjectKind {
        nextProjectId := Max(nextProjectId, value);
      } else {
        nextEmployeeId := Max(nextEmployeeId, value);
      }
    }

    /** `toNamedEntity`. */
    method ToNamedEntity(source: ApiEntity, kind: Kind) returns (e: NamedEntity)
      modifies this
      ensures e.name == source.name
      ensures (e.id, Table(kind)) == Resolve(old(Table(kind)), source)
      ensures kind == ProjectKind ==> Table(EmployeeKind) == old(Table(EmployeeKind))
      ensures kind == EmployeeKind ==> Table(ProjectKind) == old(Table(ProjectKind))
      ensures old(Valid()) ==> Valid()
    {
      ghost var t := Table(kind);
      ghost var other := Table(if kind == ProjectKind then EmployeeKind else ProjectKind);
      if source.Named? {
        var resolved: int;
        if source.id.Some? {
          resolved := source.id.value;
        } else {
          resolved := EnsureId(source.name, kind);
        }
        SetId(kind, source.name, resolved);
        if resolved >= PeekNextId(kind) {
          BumpNextId(kind, resolved + 1);
        }
        e := NamedEntity(resolved, source.name);
      } else {
        var resolved := EnsureId(source.name, kind);
        e := NamedEntity(resolved, source.name);
      }
      assert Table(if kind == ProjectKind then EmployeeKind else ProjectKind) == other;
      if Fresh(t) {
        ResolveKeepsFresh(t, source);
      }
    }

    /** `mapToTimesheetEntry`: the project through the project table, the employee through the
        employee table. */
    method MapToTimesheetEntry(item: ApiActivity) returns (entry: TimesheetEntry)
      modifies this
      ensures (entry, State()) == MapEntry(old(State()), item)
      ensures old(Valid()) ==> Valid()
    {
      var project := ToNamedEntity(item.project, ProjectKind);
      var employee := ToNamedEntity(item.employee, EmployeeKind);
      entry := TimesheetEntry(project, employee, item.date, item.hours);
    }

    /** The mapping of a fetched list, item by item. */
    method MapActivities(items: seq<ApiActivity>) returns (entries: seq<TimesheetEntry>)
      modifies this
      ensures (entries, State()) == MapEntries(old(State()), items)
      ensures old(Valid()) ==> Valid()
    {
      entries := [];
      var i := 0;
      while i < |items|
        invariant 0 <= i <= |items|
        invariant (entries, State()) == MapEntries(old(State()), items[..i])
        invariant old(Valid()) ==> Valid()
      {
        assert items[..i + 1][..i] == items[..i];
        var entry := MapToTimesheetEntry(items[i]);
        entries := entries + [entry];
        i := i + 1;
      }
      assert items[..i] == items;
    }
  }
}
