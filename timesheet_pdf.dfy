/** The PDF export of the timesheet page (web/src/app/pages/timesheet/timesheet.component.ts):
    `escapePdf` and `buildPdf`. The document is one page of Helvetica text: the header line and
    one line per row, each shown as a literal string (section 7.3.4.2 of ISO 32000-1), five
    objects, a cross-reference table (section 7.5.4) and a trailer (section 7.5.5). */
module TimesheetPdf {
  import opened Common
  import opened Text
  import opened Model
  import opened TimesheetPage

  const PLACEHOLDER: string := "Nessun dato disponibile"
  const CELL_SEPARATOR: string := " | "
  const FILE_HEADER: string := "%PDF-1.3\n"
  const STREAM_PROLOGUE: string := "BT\n/F1 12 Tf\n14 TL\n1 0 0 1 40 800 Tm\n"
  const FREE_ENTRY: string := "0000000000 65535 f \n"
  const CATALOG: string := IndirectObject(1, "<< /Type /Catalog /Pages 2 0 R >>")
  const PAGES: string := IndirectObject(2, "<< /Type /Pages /Kids [3 0 R] /Count 1 >>")
  const PAGE: string := IndirectObject(3,
    "<< /Type /Page /Parent 2 0 R /MediaBox [0 0 595 842] /Resources << /Font << /F1 5 0 R >> >> /Contents 4 0 R >>")
  const FONT: string := IndirectObject(5, "<< /Type /Font /Subtype /Type1 /BaseFont /Helvetica >>")

  /** An indirect object: its header `n 0 obj`, its content and `endobj`, each ending a line. */
  function IndirectObject(n: nat, content: string): string
  {
    ObjectHeader(n) + content + "\nendobj\n"
  }


  // ----- the text lines -----

  function RowLines(columns: seq<string>, rows: seq<Row>, num: real -> string): (r: seq<string>)
    ensures |r| == |rows|
    ensures forall i :: 0 <= i < |rows| ==> r[i] == Join(RowCells(columns, rows[i], num), CELL_SEPARATOR)
  {
    if rows == [] then [] else [Join(RowCells(columns, rows[0], num), CELL_SEPARATOR)] + RowLines(columns, rows[1..], num)
  }

  /** The lines of the page: the headers joined by ` | `, then each row's cells joined the same
      way, and the placeholder line when there is no row. */
  function PdfLines(vm: TableVM, num: real -> string): (lines: seq<string>)
    ensures |lines| >= 2 && lines[0] == Join(HeaderCells(vm.columns, vm.headers), CELL_SEPARATOR)
    ensures vm.rows != [] ==> |lines| == 1 + |vm.rows|
    ensures vm.rows != [] ==>
      forall i :: 0 <= i < |vm.rows| ==> lines[i + 1] == Join(RowCells(vm.columns, vm.rows[i], num), CELL_SEPARATOR)
    ensures vm.rows == [] ==> |lines| == 2 && lines[1] == PLACEHOLDER
  {
    var lines := [Join(HeaderCells(vm.columns, vm.headers), CELL_SEPARATOR)] + RowLines(vm.columns, vm.rows, num);
    if |lines| == 1 then lines + [PLACEHOLDER] else lines
  }

  // ----- escapePdf -----

  /** `s.replace(/c/g, r)` for one character `c`. */
  function ReplaceAll(s: string, c: char, r: string): string
  {
    if s == [] then [] else (if s[0] == c then r else [s[0]]) + ReplaceAll(s[1..], c, r)
  }

  /** `escapePdf`: backslashes are doubled first, then both parentheses are backslash-escaped. */
  function EscapePdf(s: string): string
  {
    ReplaceAll(ReplaceAll(ReplaceAll(s, '\\', "\\\\"), '(', "\\("), ')', "\\)")
  }

  predicate Delimiter(c: char)
  {
    c == '\\' || c == '(' || c == ')'
  }

  /** One character of a literal string's body: delimiters prefixed by a backslash. */
  function EscapeChar(c: char): (r: string)
    ensures Delimiter(c) ==> r == ['\\', c]
    ensures !Delimiter(c) ==> r == [c]
  {
    if Delimiter(c) then ['\\', c] else [c]
  }

  /** The literal-string body of `s`, written in a single pass. */
  function Escaped(s: string): string
  {
    if s == [] then [] else EscapeChar(s[0]) + Escaped(s[1..])
  }

  lemma {:induction false} ReplaceAllAppend(a: string, b: string, c: char, r: string)
    ensures ReplaceAll(a + b, c, r) == ReplaceAll(a, c, r) + ReplaceAll(b, c, r)
    decreases |a|
  {
    if a == [] {
      assert a + b == b;
    } else {
      assert (a + b)[1..] == a[1..] + b;
      ReplaceAllAppend(a[1..], b, c, r);
    }
  }

  lemma ReplaceAllNone(s: string, c: char, r: string)
    requires c !in s
    ensures ReplaceAll(s, c, r) == s
    decreases |s|
  {
    if s != [] {
      ReplaceAllNone(s[1..], c, r);
    }
  }

  /** The three replacements, applied in the source's order, are the single-pass escape: doubling
      the backslashes first keeps the backslashes the later replacements insert from being doubled. */
  lemma {:induction false} EscapePdfSinglePass(s: string)
    ensures EscapePdf(s) == Escaped(s)
    decreases |s|
  {
    if s != [] {
      var c := s[0];
      var t := s[1..];
      assert s == [c] + t;
      ReplaceAllAppend([c], t, '\\', "\\\\");
      var a1 := ReplaceAll([c], '\\', "\\\\");
      var b1 := ReplaceAll(t, '\\', "\\\\");
      ReplaceAllAppend(a1, b1, '(', "\\(");
      var a2 := ReplaceAll(a1, '(', "\\(");
      var b2 := ReplaceAll(b1, '(', "\\(");
      ReplaceAllAppend(a2, b2, ')', "\\)");
      EscapePdfSinglePass(t);
      assert ReplaceAll([c], '\\', "\\\\") == (if c == '\\' then "\\\\" else [c]) by {
        assert [c][1..] == [];
      }
      if c == '\\' {
        ReplaceAllNone("\\\\", '(', "\\(");
        ReplaceAllNone("\\\\", ')', "\\)");
      } else if c == '(' {
        assert ReplaceAll([c], '(', "\\(") == "\\(" by {
          assert [c][1..] == [];
        }
        ReplaceAllNone("\\(", ')', "\\)");
      } else {
        assert ReplaceAll([c], '(', "\\(") == [c] by {
          assert [c][1..] == [];
        }
        assert ReplaceAll([c], ')', "\\)") == (if c == ')' then "\\)" else [c]) by {
          assert [c][1..] == [];
        }
      }
    }
  }

  /** Reading a literal string after its opening parenthesis, as a PDF reader does: a backslash
      escapes the delimiter after it, unescaped parentheses nest, and the unescaped `)` that
      balances the opening one ends the string. `None` for an unterminated string or an escape
      sequence other than the three delimiters. */
  function ReadLiteral(s: string, depth: nat): (r: Option<(string, string)>)
    ensures r.Some? ==> |r.value.1| < |s|
  {
    if s == [] then None
    else if s[0] == '\\' then
      if |s| >= 2 && Delimiter(s[1]) then
        match ReadLiteral(s[2..], depth)
        case None => None
        case Some(p) => Some(([s[1]] + p.0, p.1))
      else None
    else if s[0] == ')' && depth == 0 then Some(([], s[1..]))
    else
      var d := if s[0] == '(' then depth + 1 else if s[0] == ')' then depth - 1 else depth;
      match ReadLiteral(s[1..], d)
      case None => None
      case Some(p) => Some(([s[0]] + p.0, p.1))
  }

  /** A reader recovers every escaped string exactly, and stops right after its closing `)`. */
  lemma {:induction false} LiteralRoundTrip(s: string, t: string)
    ensures ReadLiteral(EscapePdf(s) + ")" + t, 0) == Some((s, t))
  {
    EscapePdfSinglePass(s);
    EscapedRoundTrip(s, t);
  }

  lemma {:induction false} EscapedRoundTrip(s: string, t: string)
    ensures ReadLiteral(Escaped(s) + ")" + t, 0) == Some((s, t))
    decreases |s|
  {
    var u := Escaped(s) + ")" + t;
    if s == [] {
      assert u == ")" + t;
      assert u[1..] == t;
    } else {
      EscapedRoundTrip(s[1..], t);
      var rest := Escaped(s[1..]) + ")" + t;
      assert u == EscapeChar(s[0]) + rest;
      assert [s[0]] + s[1..] == s;
      if Delimiter(s[0]) {
        assert u[2..] == rest;
      } else {
        assert u[1..] == rest;
      }
    }
  }

  // ----- the text stream -----

  /** The text-showing operator of line `index`: the first line is shown in place, every later
      one after moving to the next line (`T*`). */
  function ShowOp(index: nat, line: string): string
  {
    if index == 0 then "(" + line + ") Tj\n" else "T* (" + line + ") Tj\n"
  }

  /** The operators of the lines `ls`, the first of which has position `start`. */
  function ShowOps(ls: seq<string>, start: nat): string
  {
    if ls == [] then "" else ShowOp(start, ls[0]) + ShowOps(ls[1..], start + 1)
  }

  function EscapeAll(lines: seq<string>): (r: seq<string>)
    ensures |r| == |lines| && forall i :: 0 <= i < |lines| ==> r[i] == EscapePdf(lines[i])
  {
    if lines == [] then [] else [EscapePdf(lines[0])] + EscapeAll(lines[1..])
  }

  /** The content stream: set up the font, leading and position, show every line, end the text. */
  function TextStream(lines: seq<string>): string
  {
    STREAM_PROLOGUE + ShowOps(EscapeAll(lines), 0) + "ET"
  }

  lemma {:induction false} ShowOpsSnoc(ls: seq<string>, x: string, start: nat)
    ensures ShowOps(ls + [x], start) == ShowOps(ls, start) + ShowOp(start + |ls|, x)
    decreases |ls|
  {
    if ls == [] {
      assert [] + [x] == [x];
      assert [x][1..] == [];
    } else {
      assert (ls + [x])[1..] == ls[1..] + [x];
      ShowOpsSnoc(ls[1..], x, start + 1);
    }
  }

  /** Drops the `T* ` that starts every operator after the first. */
  function SkipNextLine(s: string): (r: string)
    ensures |r| <= |s|
  {
    if |s| >= 3 && s[..3] == "T* " then s[3..] else s
  }

  /** Reads one `(...) Tj` operator: the shown string and what follows the operator. */
  function ReadShow(s: string): (r: Option<(string, string)>)
    ensures r.Some? ==> |r.value.1| < |s|
  {
    if s == [] || s[0] != '(' then None
    else
      match ReadLiteral(s[1..], 0)
      case None => None
      case Some(p) => if |p.1| >= 4 && p.1[..4] == " Tj\n" then Some((p.0, p.1[4..])) else None
  }

  /** Reading the operators back: the strings shown, in order. */
  function ReadShows(s: string): Option<seq<string>>
    decreases |s|
  {
    if s == [] then Some([])
    else
      match ReadShow(SkipNextLine(s))
      case None => None
      case Some(p) =>
        match ReadShows(p.1)
        case None => None
        case Some(rest) => Some([p.0] + rest)
  }

  lemma ReadShowOp(line: string, rest: string)
    ensures ReadShow("(" + EscapePdf(line) + ") Tj\n" + rest) == Some((line, rest))
  {
    var e := EscapePdf(line);
    var s := "(" + e + ") Tj\n" + rest;
    var t := " Tj\n" + rest;
    assert s[1..] == e + ")" + t;
    LiteralRoundTrip(line, t);
    assert t[..4] == " Tj\n" && t[4..] == rest;
  }

  lemma SkipOp(index: nat, line: string, rest: string)
    ensures SkipNextLine(ShowOp(index, line) + rest) == "(" + line + ") Tj\n" + rest
  {
    var s := ShowOp(index, line) + rest;
    if index == 0 {
      assert s[0] == '(';
      assert s[..3] != "T* ";
    } else {
      assert s == "T* " + ("(" + line + ") Tj\n" + rest);
    }
  }

  /** Reading one operator back gives its line and continues after ` Tj`. */
  lemma ReadOneShow(index: nat, line: string, rest: string)
    ensures ReadShows(ShowOp(index, EscapePdf(line)) + rest) ==
      match ReadShows(rest)
      case None => None
      case Some(r) => Some([line] + r)
  {
    SkipOp(index, EscapePdf(line), rest);
    ReadShowOp(line, rest);
  }

  lemma {:induction false} ShowOpsRoundTrip(lines: seq<string>, start: nat)
    ensures ReadShows(ShowOps(EscapeAll(lines), start)) == Some(lines)
    decreases |lines|
  {
    if lines != [] {
      var es := EscapeAll(lines);
      assert es[1..] == EscapeAll(lines[1..]);
      ShowOpsRoundTrip(lines[1..], start + 1);
      ReadOneShow(start, lines[0], ShowOps(es[1..], start + 1));
      assert [lines[0]] + lines[1..] == lines;
    }
  }

  /** The content stream shows exactly the page's lines, in order. */
  lemma TextStreamShowsLines(lines: seq<string>)
    ensures var ts := TextStream(lines);
      && STREAM_PROLOGUE <= ts
      && ReadShows(ts[|STREAM_PROLOGUE|..|ts| - 2]) == Some(lines)
      && ts[|ts| - 2..] == "ET"
  {
    var ts := TextStream(lines);
    var ops := ShowOps(EscapeAll(lines), 0);
    assert ts[|STREAM_PROLOGUE|..|ts| - 2] == ops;
    ShowOpsRoundTrip(lines, 0);
  }

  // ----- byte length -----

  /** The number of bytes `TextEncoder` writes for one character (UTF-8). */
  function Utf8Size(c: char): nat
  {
    if c as int < 0x80 then 1 else if c as int < 0x800 then 2 else if c as int < 0x10000 then 3 else 4
  }

  function Utf8Length(s: string): (n: nat)
    ensures n >= |s|
  {
    if s == [] then 0 else Utf8Length(s[..|s| - 1]) + Utf8Size(s[|s| - 1])
  }

  predicate Ascii(s: string)
  {
    forall i :: 0 <= i < |s| ==> s[i] as int < 0x80
  }

  /** For ASCII text the byte length and the character length agree. */
  lemma {:induction false} AsciiLength(s: string)
    requires Ascii(s)
    ensures Utf8Length(s) == |s|
  {
    if s != [] {
      AsciiLength(s[..|s| - 1]);
    }
  }

  /** One character outside ASCII makes the byte length exceed the character length. */
  lemma {:induction false} NonAsciiLength(s: string, i: nat)
    requires i < |s| && s[i] as int >= 0x80
    ensures Utf8Length(s) > |s|
  {
    if i == |s| - 1 {
      assert Utf8Length(s[..|s| - 1]) >= |s| - 1;
    } else {
      NonAsciiLength(s[..|s| - 1], i);
    }
  }

  // ----- the document -----

  /** Object 4: the content stream with its `/Length`. */
  function ContentObject(streamLength: nat, textStream: string): string
  {
    IndirectObject(4, "<< /Length " + NatToString(streamLength) + " >>\nstream\n" + textStream + "\nendstream")
  }

  /** The five objects: catalog, page tree, page, content stream and font. */
  function Objects(streamLength: nat, textStream: string): (objs: seq<string>)
    ensures |objs| == 5
  {
    [CATALOG, PAGES, PAGE, ContentObject(streamLength, textStream), FONT]
  }

  /** The file header followed by the objects. */
  function Body(objs: seq<string>): string
  {
    if objs == [] then FILE_HEADER else Body(objs[..|objs| - 1]) + objs[|objs| - 1]
  }

  /** `offsets`: 0 for the free entry, then the length of the text written before each object. */
  function Offsets(objs: seq<string>): (offs: seq<nat>)
    ensures |offs| == |objs| + 1
  {
    if objs == [] then [0] else Offsets(objs[..|objs| - 1]) + [|Body(objs[..|objs| - 1])|]
  }

  /** An in-use cross-reference entry: ten zero-padded digits, generation 0, `n`. */
  function Entry(offset: nat): string
  {
    PadStart(NatToString(offset), 10, '0') + " 00000 n \n"
  }

  /** The in-use entries of the table, one per offset. */
  function Entries(offs: seq<nat>): string
  {
    Table(Entry, offs)
  }

  /** The texts `entry` gives for each offset, one after the other. */
  function Table(entry: nat -> string, offs: seq<nat>): string
  {
    if offs == [] then "" else Table(entry, offs[..|offs| - 1]) + entry(offs[|offs| - 1])
  }

  lemma Assoc(a: string, b: string, c: string)
    ensures a + b + c == a + (b + c)
  {
  }

  lemma Concat4(x: string, a: string, b: string, c: string)
    ensures x + a + b + c == x + (a + b + c)
  {
  }

  lemma Reassoc4(x: string, a: string, b: string, c: string, d: string)
    ensures x + a + b + c + d == x + (a + b + c + d)
  {
  }

  lemma EntriesSnoc(offsets: seq<nat>, i: nat)
    requires 1 <= i < |offsets|
    ensures Entries(offsets[1..i + 1]) == Entries(offsets[1..i]) + Entry(offsets[i])
  {
    var t := offsets[1..i + 1];
    assert t[..|t| - 1] == offsets[1..i];
    assert t[|t| - 1] == offsets[i];
  }

  /** The file for a list of objects: the body, the cross-reference table (the subsection header
      for objects 0 to n, the free entry of object 0 and one entry per object), and the trailer
      with `/Size`, the root and the position of the table. */
  function Document(objs: seq<string>): string
  {
    var body := Body(objs);
    var size := |objs| + 1;
    body + XrefHead(size) + Entries(Offsets(objs)[1..]) + Trailer(size, |body|)
  }

  /** The subsection header of the table for objects 0 to `size - 1`, and the free entry. */
  function XrefHead(size: nat): string
  {
    "xref\n0 " + NatToString(size) + "\n" + FREE_ENTRY
  }

  /** The trailer dictionary, then `startxref` with the position of the table and `%%EOF`. */
  function Trailer(size: nat, xrefPosition: nat): string
  {
    TrailerDictionary(size) + StartXref(xrefPosition)
  }

  function TrailerDictionary(size: nat): string
  {
    "trailer\n" + "<< /Size " + NatToString(size) + " /Root 1 0 R >>\n"
  }

  function StartXref(xrefPosition: nat): string
  {
    "startxref\n" + NatToString(xrefPosition) + "\n" + "%%EOF"
  }

  /** The PDF file `buildPdf` returns for a view model; the stream's `/Length` is its size in
      bytes as `TextEncoder` encodes it. */
  function Pdf(vm: TableVM, num: real -> string): string
  {
    PdfFile(TextStream(PdfLines(vm, num)))
  }

  /** The file around a text stream: the five objects, the content stream's `/Length` being the
      stream's size in bytes. */
  function PdfFile(textStream: string): string
  {
    Document(Objects(Utf8Length(textStream), textStream))
  }

  // ----- layout of the file -----

  /** Every object's text, read from its recorded offset, comes right after the objects before it. */
  lemma {:induction false} BodyPrefix(objs: seq<string>, k: nat)
    requires k < |objs|
    ensures Offsets(objs)[k + 1] == |Body(objs[..k])|
    ensures Body(objs[..k]) + objs[k] <= Body(objs)
    decreases |objs|
  {
    var pre := objs[..|objs| - 1];
    if k == |objs| - 1 {
      assert objs[..k] == pre;
      assert Body(objs) == Body(pre) + objs[k];
    } else {
      BodyPrefix(pre, k);
      assert pre[..k] == objs[..k] && pre[k] == objs[k];
      assert Offsets(objs)[k + 1] == Offsets(pre)[k + 1];
    }
  }

  lemma BodyStep(objs: seq<string>, k: nat)
    requires k < |objs|
    ensures Body(objs[..k + 1]) == Body(objs[..k]) + objs[k]
  {
    assert objs[..k + 1][..k] == objs[..k];
  }

  /** Object `n` starts at its offset in the body. */
  lemma {:induction false} ObjectAt(objs: seq<string>, n: nat)
    requires 1 <= n <= |objs|
    ensures var off := Offsets(objs)[n];
      off + |objs[n - 1]| <= |Body(objs)| && Body(objs)[off..off + |objs[n - 1]|] == objs[n - 1]
  {
    BodyPrefix(objs, n - 1);
    var b := Body(objs[..n - 1]);
    assert Body(objs)[|b|..|b| + |objs[n - 1]|] == (b + objs[n - 1])[|b|..];
  }

  lemma {:induction false} OffsetsFirst(objs: seq<string>)
    ensures Offsets(objs)[0] == 0
    decreases |objs|
  {
    if objs != [] {
      OffsetsFirst(objs[..|objs| - 1]);
    }
  }

  /** With non-empty objects the offsets strictly increase, starting after the file header. */
  lemma {:induction false} OffsetsIncrease(objs: seq<string>, n: nat)
    requires forall i :: 0 <= i < |objs| ==> objs[i] != []
    requires 1 <= n <= |objs|
    ensures Offsets(objs)[n - 1] < Offsets(objs)[n]
  {
    BodyPrefix(objs, n - 1);
    if n == 1 {
      assert objs[..0] == [];
      assert Offsets(objs)[0] == 0 by { OffsetsFirst(objs); }
    } else {
      BodyPrefix(objs, n - 2);
      BodyStep(objs, n - 2);
    }
  }

  /** Every recorded offset of an object lies within the body. */
  lemma OffsetsWithinBody(objs: seq<string>)
    ensures forall j :: 1 <= j < |Offsets(objs)| ==> Offsets(objs)[j] <= |Body(objs)|
  {
    forall j | 1 <= j < |Offsets(objs)|
      ensures Offsets(objs)[j] <= |Body(objs)|
    {
      BodyPrefix(objs, j - 1);
    }
  }

  /** An entry is 20 characters whose first ten are the offset in decimal. */
  lemma {:induction false} EntryShape(offset: nat)
    requires offset < Pow10(10)
    ensures |Entry(offset)| == 20
    ensures Decimal(Entry(offset)[..10], offset)
  {
    PaddedDecimal(offset, 10);
    var p := PadStart(NatToString(offset), 10, '0');
    assert Entry(offset)[..10] == p;
  }

  /** When every text is 20 characters long, the table is 20 characters per offset. */
  lemma {:induction false} TableLength(entry: nat -> string, offs: seq<nat>)
    requires forall i :: 0 <= i < |offs| ==> |entry(offs[i])| == 20
    ensures |Table(entry, offs)| == 20 * |offs|
    decreases |offs|
  {
    if offs != [] {
      var pre := offs[..|offs| - 1];
      forall i | 0 <= i < |pre|
        ensures |entry(pre[i])| == 20
      {
        assert pre[i] == offs[i];
      }
      TableLength(entry, pre);
    }
  }

  /** When every text is 20 characters long, text `k` sits at `20 * k`. */
  lemma {:induction false} TableAt(entry: nat -> string, offs: seq<nat>, k: nat)
    requires forall i :: 0 <= i < |offs| ==> |entry(offs[i])| == 20
    requires k < |offs|
    ensures |Table(entry, offs)| == 20 * |offs|
    ensures Table(entry, offs)[20 * k..20 * k + 20] == entry(offs[k])
    decreases |offs|
  {
    var pre := offs[..|offs| - 1];
    var t := Table(entry, pre);
    var last := entry(offs[|offs| - 1]);
    forall i | 0 <= i < |pre|
      ensures |entry(pre[i])| == 20
    {
      assert pre[i] == offs[i];
    }
    TableLength(entry, pre);
    assert Table(entry, offs) == t + last;
    if k < |offs| - 1 {
      TableAt(entry, pre, k);
      assert pre[k] == offs[k];
      AppendSliceLeft(t, last, 20 * k, 20);
    } else {
      AppendSliceRight(t, last, 20 * k, 20);
    }
  }

  lemma AppendSliceLeft(t: string, x: string, a: nat, n: nat)
    requires a + n <= |t|
    ensures (t + x)[a..a + n] == t[a..a + n]
  {
    assert (t + x)[..|t|] == t;
  }

  lemma AppendSliceRight(t: string, x: string, a: nat, n: nat)
    requires a == |t| && n == |x|
    ensures (t + x)[a..a + n] == x
  {
  }

  /** A slice of a piece found at `start` inside a text is found at the corresponding place. */
  lemma SliceWithin(doc: string, start: nat, end: nat, piece: string, a: nat, n: nat)
    requires start <= end <= |doc| && doc[start..end] == piece
    requires a + n <= |piece|
    ensures doc[start + a..start + a + n] == piece[a..a + n]
  {
    var u := doc[start + a..start + a + n];
    var v := piece[a..a + n];
    forall m | 0 <= m < n
      ensures u[m] == v[m]
    {
      assert doc[start..end][a + m] == doc[start + a + m];
    }
  }

  lemma PrefixWithin(doc: string, start: nat, end: nat, piece: string, n: nat)
    requires start <= end <= |doc| && doc[start..end] == piece
    requires n <= |piece|
    ensures doc[start..start + n] == piece[..n]
  {
    forall m | 0 <= m < n
      ensures doc[start..start + n][m] == piece[..n][m]
    {
      assert doc[start..end][m] == doc[start + m];
    }
  }

  /** A slice of the text a text begins with is the same slice of the text. */
  lemma WithinPrefix(doc: string, piece: string, a: nat, n: nat)
    requires |piece| <= |doc| && doc[..|piece|] == piece
    requires a + n <= |piece|
    ensures doc[a..a + n] == piece[a..a + n]
  {
    var u := doc[a..a + n];
    var v := piece[a..a + n];
    forall m | 0 <= m < n
      ensures u[m] == v[m]
    {
      assert doc[..|piece|][a + m] == doc[a + m];
    }
  }

  /** A text ending with `pre + suf` ends with `suf`. */
  lemma EndsWith(doc: string, pre: string, suf: string)
    requires |pre + suf| <= |doc| && doc[|doc| - |pre + suf|..] == pre + suf
    ensures doc[|doc| - |suf|..] == suf
  {
    forall m | 0 <= m < |suf|
      ensures doc[|doc| - |suf|..][m] == suf[m]
    {
      assert doc[|doc| - |pre + suf|..][|pre| + m] == (pre + suf)[|pre| + m];
    }
  }

  /** The pieces of a concatenation of four strings, read back at their positions. */
  lemma Pieces(a: string, b: string, c: string, d: string)
    ensures var s := a + b + c + d;
      && s[..|a|] == a
      && s[|a|..|a| + |b|] == b
      && s[|a| + |b|..|a| + |b| + |c|] == c
      && s[|a| + |b| + |c|..] == d
  {
  }

  /** The file splits into the body, the table's header, the entries and the trailer. */
  lemma {:induction false} DocumentPieces(objs: seq<string>)
    ensures Document(objs) == Body(objs) + XrefHead(|objs| + 1) + Entries(Offsets(objs)[1..])
      + Trailer(|objs| + 1, |Body(objs)|)
  {
  }

  /** The file begins with the body. */
  lemma DocumentBody(objs: seq<string>)
    ensures var body := Body(objs);
      |body| <= |Document(objs)| && Document(objs)[..|body|] == body
  {
    var body := Body(objs);
    DocumentPieces(objs);
    Pieces(body, XrefHead(|objs| + 1), Entries(Offsets(objs)[1..]), Trailer(|objs| + 1, |body|));
  }

  /** The table's header follows the body. */
  lemma DocumentHead(objs: seq<string>)
    ensures var body := Body(objs);
      var head := XrefHead(|objs| + 1);
      |body| + |head| <= |Document(objs)| && Document(objs)[|body|..|body| + |head|] == head
  {
    var body := Body(objs);
    DocumentPieces(objs);
    Pieces(body, XrefHead(|objs| + 1), Entries(Offsets(objs)[1..]), Trailer(|objs| + 1, |body|));
  }

  /** The entries follow the table's header. */
  lemma DocumentEntries(objs: seq<string>)
    ensures var body := Body(objs);
      var head := XrefHead(|objs| + 1);
      var entries := Entries(Offsets(objs)[1..]);
      && |body| + |head| + |entries| <= |Document(objs)|
      && Document(objs)[|body| + |head|..|body| + |head| + |entries|] == entries
  {
    var body := Body(objs);
    DocumentPieces(objs);
    Pieces(body, XrefHead(|objs| + 1), Entries(Offsets(objs)[1..]), Trailer(|objs| + 1, |body|));
  }

  /** The trailer closes the file. */
  lemma DocumentTrailer(objs: seq<string>)
    ensures var trailer := Trailer(|objs| + 1, |Body(objs)|);
      var doc := Document(objs);
      |trailer| <= |doc| && doc[|doc| - |trailer|..] == trailer
  {
    var body := Body(objs);
    DocumentPieces(objs);
    Pieces(body, XrefHead(|objs| + 1), Entries(Offsets(objs)[1..]), Trailer(|objs| + 1, |body|));
  }

  /** The header line `n 0 obj` opening indirect object `n`. */
  function ObjectHeader(n: nat): string
  {
    NatToString(n) + " 0 obj\n"
  }

  /** Object `n` of the file, at position `n - 1` of the list, opens with its header. */
  predicate Numbered(objs: seq<string>)
  {
    forall n :: 1 <= n <= |objs| ==> |ObjectHeader(n)| <= |objs[n - 1]| && objs[n - 1][..|ObjectHeader(n)|] == ObjectHeader(n)
  }

  lemma HeaderOpens(n: nat, content: string)
    ensures var obj := IndirectObject(n, content);
      |ObjectHeader(n)| <= |obj| && obj[..|ObjectHeader(n)|] == ObjectHeader(n)
  {
    assert IndirectObject(n, content) == ObjectHeader(n) + (content + "\nendobj\n");
  }

  /** The five objects `buildPdf` writes are numbered 1 to 5 in order. */
  lemma ObjectsAreNumbered(streamLength: nat, textStream: string)
    ensures Numbered(Objects(streamLength, textStream))
  {
    HeaderOpens(1, "<< /Type /Catalog /Pages 2 0 R >>");
    HeaderOpens(2, "<< /Type /Pages /Kids [3 0 R] /Count 1 >>");
    HeaderOpens(3,
      "<< /Type /Page /Parent 2 0 R /MediaBox [0 0 595 842] /Resources << /Font << /F1 5 0 R >> >> /Contents 4 0 R >>");
    HeaderOpens(4, "<< /Length " + NatToString(streamLength) + " >>\nstream\n" + textStream + "\nendstream");
    HeaderOpens(5, "<< /Type /Font /Subtype /Type1 /BaseFont /Helvetica >>");
  }

  /** In the file of numbered objects, object `i` starts at `offsets[i]` with its header `i 0 obj`,
      after the offset before it, the first offset being 0. */
  lemma {:induction false} FileObjectAt(objs: seq<string>, i: nat)
    requires Numbered(objs)
    requires 1 <= i <= |objs|
    ensures var doc := Document(objs);
      var offs := Offsets(objs);
      var h := ObjectHeader(i);
      && offs[0] == 0 && offs[i - 1] < offs[i]
      && offs[i] + |h| <= |doc| && doc[offs[i]..offs[i] + |h|] == h
  {
    var doc := Document(objs);
    var body := Body(objs);
    var offs := Offsets(objs);
    forall j | 0 <= j < |objs|
      ensures objs[j] != []
    {
      assert |ObjectHeader(j + 1)| <= |objs[j + 1 - 1]|;
    }
    OffsetsFirst(objs);
    OffsetsIncrease(objs, i);
    ObjectAt(objs, i);
    DocumentBody(objs);
    WithinPrefix(doc, body, offs[i], |objs[i - 1]|);
    PrefixWithin(doc, offs[i], offs[i] + |objs[i - 1]|, objs[i - 1], |ObjectHeader(i)|);
  }

  /** The table starts where the body ends, with its subsection header and the free entry, and
      the file ends with `startxref`, that position and `%%EOF`; the position reads back. */
  lemma {:induction false} FileXref(objs: seq<string>)
    ensures var doc := Document(objs);
      var xref := |Body(objs)|;
      var head := XrefHead(|objs| + 1);
      && xref + |head| <= |doc| && doc[xref..xref + |head|] == head
      && |StartXref(xref)| <= |doc| && doc[|doc| - |StartXref(xref)|..] == StartXref(xref)
      && DigitsValue(NatToString(xref)) == xref
  {
    var body := Body(objs);
    DocumentHead(objs);
    DocumentTrailer(objs);
    EndsWith(Document(objs), TrailerDictionary(|objs| + 1), StartXref(|body|));
    NatToStringRoundTrip(|body|);
  }

  /** With offsets below 10^10, the ten characters at `20 * j` of the entries are the digits
      of offset `j`. */
  lemma {:induction false} EntryDigits(offs: seq<nat>, j: nat)
    requires forall i :: 0 <= i < |offs| ==> offs[i] < Pow10(10)
    requires j < |offs|
    ensures var entries := Entries(offs);
      && |entries| == 20 * |offs|
      && Decimal(entries[20 * j..20 * j + 10], offs[j])
  {
    forall i | 0 <= i < |offs|
      ensures |Entry(offs[i])| == 20
    {
      EntryShape(offs[i]);
    }
    EntryShape(offs[j]);
    TableDigits(Entry, offs, j);
  }

  /** In a table of 20-character texts, the first ten characters of text `j` sit at `20 * j`. */
  lemma TableDigits(entry: nat -> string, offs: seq<nat>, j: nat)
    requires forall i :: 0 <= i < |offs| ==> |entry(offs[i])| == 20
    requires j < |offs|
    requires Decimal(entry(offs[j])[..10], offs[j])
    ensures var t := Table(entry, offs);
      && |t| == 20 * |offs|
      && Decimal(t[20 * j..20 * j + 10], offs[j])
  {
    var t := Table(entry, offs);
    TableAt(entry, offs, j);
    PrefixWithin(t, 20 * j, 20 * j + 20, entry(offs[j]), 10);
  }

  /** When the objects end before character 10^10, the entries sit after the table's header,
      20 characters each, and the entry of object `i` opens with `offsets[i]` in ten decimal
      digits. */
  lemma {:induction false} FileEntryAt(objs: seq<string>, i: nat)
    requires 1 <= i <= |objs|
    requires |Body(objs)| < Pow10(10)
    ensures var doc := Document(objs);
      var start := |Body(objs)| + |XrefHead(|objs| + 1)|;
      var entries := Entries(Offsets(objs)[1..]);
      && start + |entries| <= |doc| && doc[start..start + |entries|] == entries
      && |entries| == 20 * |objs|
      && Decimal(entries[20 * (i - 1)..20 * (i - 1) + 10], Offsets(objs)[i])
  {
    var t := Offsets(objs)[1..];
    DocumentEntries(objs);
    TailOffsetsBelow(objs);
    EntryDigits(t, i - 1);
    assert t[i - 1] == Offsets(objs)[i];
  }

  /** The offsets of the objects, past the leading 0, stay below a bound on the body. */
  lemma TailOffsetsBelow(objs: seq<string>)
    requires |Body(objs)| < Pow10(10)
    ensures var t := Offsets(objs)[1..];
      forall j :: 0 <= j < |t| ==> t[j] < Pow10(10)
  {
    var offs := Offsets(objs);
    OffsetsWithinBody(objs);
    forall j | 0 <= j < |offs[1..]|
      ensures offs[1..][j] < Pow10(10)
    {
      assert offs[1..][j] == offs[j + 1];
    }
  }

  /** The `escapedLines.forEach` loop and the closing `ET`. */
  method WriteTextStream(escapedLines: seq<string>) returns (textStream: string)
    ensures textStream == STREAM_PROLOGUE + ShowOps(escapedLines, 0) + "ET"
  {
    textStream := STREAM_PROLOGUE;
    for index := 0 to |escapedLines|
      invariant textStream == STREAM_PROLOGUE + ShowOps(escapedLines[..index], 0)
    {
      ghost var before := textStream;
      ghost var line := escapedLines[index];
      if index == 0 {
        textStream := textStream + "(" + escapedLines[index] + ") Tj\n";
        Concat4(before, "(", line, ") Tj\n");
      } else {
        textStream := textStream + "T* (" + escapedLines[index] + ") Tj\n";
        Concat4(before, "T* (", line, ") Tj\n");
      }
      assert textStream == before + ShowOp(index, line);
      AppendShown(escapedLines, index, before);
    }
    assert escapedLines[..|escapedLines|] == escapedLines;
    textStream := textStream + "ET";
  }

  lemma AppendShown(escapedLines: seq<string>, index: nat, before: string)
    requires index < |escapedLines|
    requires before == STREAM_PROLOGUE + ShowOps(escapedLines[..index], 0)
    ensures before + ShowOp(index, escapedLines[index]) == STREAM_PROLOGUE + ShowOps(escapedLines[..index + 1], 0)
  {
    var pre := escapedLines[..index];
    ShowOpsSnoc(pre, escapedLines[index], 0);
    assert escapedLines[..index + 1] == pre + [escapedLines[index]];
    Assoc(STREAM_PROLOGUE, ShowOps(pre, 0), ShowOp(index, escapedLines[index]));
  }

  /** The `objects.forEach` loop: record where each object starts, then write it. */
  method WriteBody(objects: seq<string>) returns (pdf: string, offsets: seq<nat>)
    ensures pdf == Body(objects) && offsets == Offsets(objects)
  {
    pdf := FILE_HEADER;
    offsets := [0];
    for k := 0 to |objects|
      invariant pdf == Body(objects[..k]) && offsets == Offsets(objects[..k])
    {
      assert objects[..k + 1][..k] == objects[..k];
      offsets := offsets + [|pdf|];
      pdf := pdf + objects[k];
    }
    assert objects[..|objects|] == objects;
  }

  /** The cross-reference table: the subsection header, the free entry, then the loop writing
      one entry per object. */
  method WriteXref(body: string, offsets: seq<nat>, count: nat) returns (pdf: string)
    requires count + 1 == |offsets|
    ensures pdf == body + XrefHead(count + 1) + Entries(offsets[1..])
  {
    pdf := body + "xref\n0 " + NatToString(count + 1) + "\n";
    pdf := pdf + FREE_ENTRY;
    assert pdf == body + XrefHead(count + 1);
    ghost var start := pdf;
    for i := 1 to count + 1
      invariant pdf == start + Entries(offsets[1..i])
    {
      EntriesSnoc(offsets, i);
      Assoc(start, Entries(offsets[1..i]), Entry(offsets[i]));
      pdf := pdf + PadStart(NatToString(offsets[i]), 10, '0') + " 00000 n \n";
      Assoc(start + Entries(offsets[1..i]), PadStart(NatToString(offsets[i]), 10, '0'), " 00000 n \n");
    }
    assert offsets[1..count + 1] == offsets[1..];
  }

  /** The trailer and the `startxref` section closing the file. */
  method WriteTrailer(start: string, size: nat, xrefPosition: nat) returns (pdf: string)
    ensures pdf == start + Trailer(size, xrefPosition)
  {
    pdf := start + "trailer\n";
    pdf := pdf + "<< /Size " + NatToString(size) + " /Root 1 0 R >>\n";
    Reassoc4(start, "trailer\n", "<< /Size ", NatToString(size), " /Root 1 0 R >>\n");
    ghost var dictionary := pdf;
    pdf := pdf + "startxref\n";
    pdf := pdf + NatToString(xrefPosition) + "\n";
    pdf := pdf + "%%EOF";
    Reassoc4(dictionary, "startxref\n", NatToString(xrefPosition), "\n", "%%EOF");
    Assoc(start, TrailerDictionary(size), StartXref(xrefPosition));
  }

  method BuildPdf(vm: TableVM, num: real -> string) returns (pdf: string)
    ensures pdf == Pdf(vm, num)
  {
    var lines := [Join(HeaderCells(vm.columns, vm.headers), CELL_SEPARATOR)] + RowLines(vm.columns, vm.rows, num);
    if |lines| == 1 {
      lines := lines + [PLACEHOLDER];
    }
    assert lines == PdfLines(vm, num);
    var escapedLines := EscapeAll(lines);
    var textStream := WriteTextStream(escapedLines);
    var streamLength := Utf8Length(textStream);
    var objects := Objects(streamLength, textStream);
    var offsets;
    pdf, offsets := WriteBody(objects);
    var xrefPosition := |pdf|;
    pdf := WriteXref(pdf, offsets, |objects|);
    pdf := WriteTrailer(pdf, |objects| + 1, xrefPosition);
  }
}
