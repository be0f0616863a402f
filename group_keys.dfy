/** The three grouping dimensions (`groupKeySchema` on the server, `GroupKey` in the web client)
    and their wire names. */
module GroupKeys {
  import opened Common

  datatype GroupKey = Project | Employee | Date

  function Name(k: GroupKey): string
  {
    match k
    case Project => "project"
    case Employee => "employee"
    case Date => "date"
  }

  /** Accepts exactly the three wire names (`z.enum(['project','employee','date'])`,
      `keys.includes(value)`). */
  function Parse(s: string): (r: Option<GroupKey>)
    ensures r.Some? <==> s == "project" || s == "employee" || s == "date"
    ensures r.Some? ==> Name(r.value) == s
  {
    if s == "project" then Some(Project)
    else if s == "employee" then Some(Employee)
    else if s == "date" then Some(Date)
    else None
  }

  lemma ParseName(k: GroupKey)
    ensures Parse(Name(k)) == Some(k)
  {
  }
}
