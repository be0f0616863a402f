/** The web client's data types (web/src/app/model/model.ts). */
module Model {

  datatype NamedEntity = NamedEntity(id: int, name: string)

  datatype TimesheetEntry = TimesheetEntry(project: NamedEntity, employee: NamedEntity, date: string, hours: real)

  /** A cell of a table row: `string | number`. */
  datatype Cell = Text(s: string) | Number(n: real)

  /** `Record<string, string | number> & { hours: number }`: the column names a row defines. */
  type Row = map<string, Cell>

  datatype TableVM = TableVM(columns: seq<string>, headers: map<string, string>, rows: seq<Row>)
}
