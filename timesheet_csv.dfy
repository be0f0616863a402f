/** The CSV export of the timesheet page (web/src/app/pages/timesheet/timesheet.component.ts):
    `escapeCsv`, `buildCsv`, and a reader for the format they write, against which the export
    is shown to lose nothing. */
module TimesheetCsv {
  import opened Text
  import opened Model
  import opened TimesheetPage

  /** The characters that force quoting: a quote, the `;` separator and a line feed. */
  predicate Special(c: char)
  {
    c == '"' || c == ';' || c == '\n'
  }

  predicate NeedsQuotes(v: string)
  {
    exists i :: 0 <= i < |v| && Special(v[i])
  }

  /** `v.replace(/"/g, '""')`. */
  function DoubleQuotes(v: string): (r: string)
    ensures |r| >= |v|
  {
    if v == [] then [] else (if v[0] == '"' then "\"\"" else [v[0]]) + DoubleQuotes(v[1..])
  }

  /** `escapeCsv`: a value without specials is written as is, any other is quoted with its
      quotes doubled. */
  function EscapeCsv(v: string): (r: string)
    ensures !NeedsQuotes(v) ==> r == v
    ensures NeedsQuotes(v) ==> |r| >= 2 && r[0] == '"' && r[|r| - 1] == '"'
  {
    if NeedsQuotes(v) then "\"" + DoubleQuotes(v) + "\"" else v
  }

  function EscapeCells(cells: seq<string>): (r: seq<string>)
    ensures |r| == |cells|
  {
    if cells == [] then [] else [EscapeCsv(cells[0])] + EscapeCells(cells[1..])
  }

  /** `line.map(escapeCsv).join(';')`. */
  function CsvLine(cells: seq<string>): string
  {
    Join(EscapeCells(cells), ";")
  }

  function CsvLines(lines: seq<seq<string>>): (r: seq<string>)
    ensures |r| == |lines|
  {
    if lines == [] then [] else [CsvLine(lines[0])] + CsvLines(lines[1..])
  }

  /** `buildCsv`: the header line and one line per row, joined by line feeds. */
  function BuildCsv(vm: TableVM, num: real -> string): string
  {
    Join(CsvLines(TableCells(vm, num)), "\n")
  }

  // ----- a reader for the written format -----

  predicate FieldEnd(t: string)
  {
    t == [] || t[0] == ';' || t[0] == '\n'
  }

  /** An unquoted field runs to the next separator or line feed. */
  function ParsePlain(s: string): (r: (string, string))
    ensures |r.1| <= |s| && FieldEnd(r.1)
  {
    if s == [] || s[0] == ';' || s[0] == '\n' then ([], s)
    else var p := ParsePlain(s[1..]); ([s[0]] + p.0, p.1)
  }

  /** A quoted field, read after its opening quote: `""` is one quote, a lone quote closes it. */
  function ParseQuoted(s: string): (r: (string, string))
    ensures |r.1| <= |s|
  {
    if s == [] then ([], [])
    else if s[0] == '"' then
      if |s| >= 2 && s[1] == '"' then var p := ParseQuoted(s[2..]); (['"'] + p.0, p.1)
      else ([], s[1..])
    else var p := ParseQuoted(s[1..]); ([s[0]] + p.0, p.1)
  }

  function ParseField(s: string): (r: (string, string))
    ensures |r.1| <= |s|
  {
    if s != [] && s[0] == '"' then ParseQuoted(s[1..]) else ParsePlain(s)
  }

  /** The fields of one record and what follows it. */
  function ParseRecord(s: string): (r: (seq<string>, string))
    ensures |r.1| <= |s|
    decreases |s|
  {
    var f := ParseField(s);
    if f.1 != [] && f.1[0] == ';' then
      var rest := ParseRecord(f.1[1..]);
      ([f.0] + rest.0, rest.1)
    else ([f.0], f.1)
  }

  /** The records of a document. */
  function ParseCsv(s: string): seq<seq<string>>
    decreases |s|
  {
    var r := ParseRecord(s);
    if r.1 == [] then [r.0] else [r.0] + ParseCsv(r.1[1..])
  }

  // ----- round trip -----

  lemma {:induction false} PlainRoundTrip(v: string, t: string)
    requires !NeedsQuotes(v) && FieldEnd(t)
    ensures ParsePlain(v + t) == (v, t)
  {
    if v != [] {
      assert !Special(v[0]);
      assert !NeedsQuotes(v[1..]) by {
        forall i | 0 <= i < |v[1..]|
          ensures !Special(v[1..][i])
        {
          assert v[1..][i] == v[i + 1];
        }
      }
      PlainRoundTrip(v[1..], t);
      assert (v + t)[1..] == v[1..] + t;
      assert [v[0]] + v[1..] == v;
    } else {
      assert v + t == t;
    }
  }

  lemma {:induction false} QuotedRoundTrip(v: string, t: string)
    requires FieldEnd(t)
    ensures ParseQuoted(DoubleQuotes(v) + "\"" + t) == (v, t)
  {
    var s := DoubleQuotes(v) + "\"" + t;
    if v == [] {
      assert s == "\"" + t;
      assert s[1..] == t;
    } else if v[0] == '"' {
      QuotedRoundTrip(v[1..], t);
      assert s == "\"\"" + (DoubleQuotes(v[1..]) + "\"" + t);
      assert s[2..] == DoubleQuotes(v[1..]) + "\"" + t;
      assert ['"'] + v[1..] == v;
    } else {
      QuotedRoundTrip(v[1..], t);
      assert s == [v[0]] + (DoubleQuotes(v[1..]) + "\"" + t);
      assert s[1..] == DoubleQuotes(v[1..]) + "\"" + t;
      assert [v[0]] + v[1..] == v;
    }
  }

  /** Reading an escaped cell back gives the cell, and stops at the separator after it. */
  lemma FieldRoundTrip(v: string, t: string)
    requires FieldEnd(t)
    ensures ParseField(EscapeCsv(v) + t) == (v, t)
  {
    if NeedsQuotes(v) {
      var q := DoubleQuotes(v) + "\"" + t;
      OpenQuote(EscapeCsv(v) + t, q);
      QuotedRoundTrip(v, t);
    } else {
      PlainRoundTrip(v, t);
      if v != [] {
        assert !Special(v[0]);
      }
      PlainField(v + t);
    }
  }

  /** A text not opening with a quote is read as an unquoted field. */
  lemma PlainField(s: string)
    requires s == [] || s[0] != '"'
    ensures ParseField(s) == ParsePlain(s)
  {
  }

  /** A text opening with a quote is read as a quoted field. */
  lemma OpenQuote(s: string, q: string)
    requires s == "\"" + q
    ensures ParseField(s) == ParseQuoted(q)
  {
    assert s[0] == '"' && s[1..] == q;
  }

  lemma {:induction false} RecordRoundTrip(cells: seq<string>, t: string)
    requires |cells| >= 1 && (t == [] || t[0] == '\n')
    ensures ParseRecord(CsvLine(cells) + t) == (cells, t)
    decreases |cells|
  {
    var es := EscapeCells(cells);
    if |cells| == 1 {
      assert CsvLine(cells) == EscapeCsv(cells[0]);
      FieldRoundTrip(cells[0], t);
      assert ParseField(CsvLine(cells) + t) == (cells[0], t);
      assert [cells[0]] == cells;
    } else {
      var rest := CsvLine(cells[1..]) + t;
      var x := CsvLine(cells) + t;
      assert es[1..] == EscapeCells(cells[1..]);
      assert Join(es, ";") == es[0] + ";" + Join(es[1..], ";");
      Assoc3(es[0], ";", CsvLine(cells[1..]), t);
      FieldRoundTrip(cells[0], ";" + rest);
      RecordRoundTrip(cells[1..], t);
      RecordCons(x, cells[0], rest, cells[1..], t);
      assert [cells[0]] + cells[1..] == cells;
    }
  }

  lemma Assoc3(a: string, b: string, c: string, d: string)
    ensures a + b + c + d == a + (b + (c + d))
  {
  }

  /** A field followed by the separator, then a record, reads as one longer record. */
  lemma RecordCons(x: string, f: string, rest: string, fields: seq<string>, t: string)
    requires ParseField(x) == (f, ";" + rest)
    requires ParseRecord(rest) == (fields, t)
    ensures ParseRecord(x) == ([f] + fields, t)
  {
    assert (";" + rest)[1..] == rest;
  }

  lemma {:induction false} LinesRoundTrip(lines: seq<seq<string>>)
    requires |lines| >= 1
    requires forall i :: 0 <= i < |lines| ==> |lines[i]| >= 1
    ensures ParseCsv(Join(CsvLines(lines), "\n")) == lines
    decreases |lines|
  {
    var ls := CsvLines(lines);
    if |lines| == 1 {
      assert Join(ls, "\n") == CsvLine(lines[0]) + [];
      RecordRoundTrip(lines[0], []);
    } else {
      var rest := Join(CsvLines(lines[1..]), "\n");
      assert ls[1..] == CsvLines(lines[1..]);
      assert Join(ls, "\n") == CsvLine(lines[0]) + ("\n" + rest);
      RecordRoundTrip(lines[0], "\n" + rest);
      assert ("\n" + rest)[1..] == rest;
      LinesRoundTrip(lines[1..]);
      assert [lines[0]] + lines[1..] == lines;
    }
  }

  /** With at least one column, reading the export back gives exactly the header cells (each
      header label, or the column name without one) and the formatted cells of every row: one
      record per row after the header, one field per column. */
  lemma BuildCsvRoundTrip(vm: TableVM, num: real -> string)
    requires |vm.columns| >= 1
    ensures var records := ParseCsv(BuildCsv(vm, num));
      && records == TableCells(vm, num)
      && |records| == 1 + |vm.rows|
      && records[0] == HeaderCells(vm.columns, vm.headers)
      && (forall i :: 0 <= i < |vm.rows| ==> records[i + 1] == RowCells(vm.columns, vm.rows[i], num))
  {
    LinesRoundTrip(TableCells(vm, num));
  }

  /** Without columns every line is empty, so the export is `|rows|` line feeds. */
  lemma BuildCsvNoColumns(vm: TableVM, num: real -> string)
    requires vm.columns == []
    ensures BuildCsv(vm, num) == Repeat('\n', |vm.rows|)
  {
    var lines := TableCells(vm, num);
    EmptyLines(lines);
  }

  lemma {:induction false} EmptyLines(lines: seq<seq<string>>)
    requires |lines| >= 1
    requires forall i :: 0 <= i < |lines| ==> lines[i] == []
    ensures Join(CsvLines(lines), "\n") == Repeat('\n', |lines| - 1)
    decreases |lines|
  {
    var ls := CsvLines(lines);
    assert CsvLine(lines[0]) == "";
    if |lines| > 1 {
      assert ls[1..] == CsvLines(lines[1..]);
      EmptyLines(lines[1..]);
      RepeatCons('\n', |lines| - 2);
    }
  }
}
