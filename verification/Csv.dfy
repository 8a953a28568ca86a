/**
 The CSV codec of apps/api/src/import-export/csv.ts.

 `Parse` specifies the character scanner, `ParseCsv` is the scanner as it is written (an index
 loop over `current`, `row`, `rows` and `quoted`), and `ToCsv` is the printer with its formula
 guard.  The main results say what comes back when a table is printed and parsed again.
 */
module Csv {
  import opened Text

  type Record = map<string, string>

  /** A value the printer accepts: null or undefined, text, or a boolean. */
  datatype Cell = Absent | Text(text: string) | Flag(on: bool)

  type Row = map<string, Cell>

  // ---------- the scanner ----------

  /** The variables of the scanning loop. */
  datatype Scan = Scan(rows: seq<seq<string>>, row: seq<string>, current: string, quoted: bool)

  const START := Scan([], [], "", false)

  function EndCell(st: Scan): Scan {
    st.(row := st.row + [Trim(st.current)], current := "")
  }

  function EndRow(st: Scan): Scan {
    var cell := EndCell(st);
    Scan(cell.rows + [cell.row], [], "", st.quoted)
  }

  /** How many characters one turn of the loop consumes: an escaped quote and a CR LF take two. */
  function Width(st: Scan, s: string): nat
    requires s != ""
  {
    if |s| > 1 && ((s[0] == '"' && st.quoted && s[1] == '"')
                   || (s[0] == '\r' && !st.quoted && s[1] == '\n')) then 2 else 1
  }

  function Turn(st: Scan, s: string): Scan
    requires s != ""
  {
    var c := s[0];
    if c == '"' then
      if Width(st, s) == 2 then st.(current := st.current + "\"") else st.(quoted := !st.quoted)
    else if c == ',' && !st.quoted then EndCell(st)
    else if (c == '\n' || c == '\r') && !st.quoted then EndRow(st)
    else st.(current := st.current + [c])
  }

  function Run(st: Scan, s: string): Scan
    decreases |s|
  {
    if s == "" then st else Run(Turn(st, s), s[Width(st, s)..])
  }

  predicate Filled(row: seq<string>) {
    exists i :: 0 <= i < |row| && row[i] != ""
  }

  function Keep(rows: seq<seq<string>>): seq<seq<string>> {
    if rows == [] then []
    else (if Filled(rows[0]) then [rows[0]] else []) + Keep(rows[1..])
  }

  /** The rows of a finished scan that hold at least one non-empty cell. */
  function FilledRows(st: Scan): seq<seq<string>> {
    Keep(EndRow(st).rows)
  }

  function CellAt(cells: seq<string>, i: nat): string {
    if i < |cells| then cells[i] else ""
  }

  /** `Object.fromEntries` over the headers: a later header of the same name wins. */
  function ToRecord(headers: seq<string>, cells: seq<string>, n: nat): Record
    requires n <= |headers|
  {
    if n == 0 then map[] else ToRecord(headers, cells, n - 1)[Trim(headers[n - 1]) := CellAt(cells, n - 1)]
  }

  function ToRecords(headers: seq<string>, rows: seq<seq<string>>): seq<Record> {
    if rows == [] then []
    else [ToRecord(headers, rows[0], |headers|)] + ToRecords(headers, rows[1..])
  }

  function WithoutBom(s: string): string {
    if s != "" && s[0] == '\U{FEFF}' then s[1..] else s
  }

  function Parse(input: string): seq<Record> {
    var text := Trim(WithoutBom(input));
    var rows := FilledRows(Run(START, text));
    if text == "" || rows == [] then [] else ToRecords(rows[0], rows[1..])
  }

  method ParseCsv(input: string) returns (records: seq<Record>)
    ensures records == Parse(input)
  {
    var text := Trim(WithoutBom(input));
    if text == "" {
      return [];
    }
    var rows: seq<seq<string>>, current, row: seq<string>, quoted := [], "", [], false;
    var index := 0;
    while index < |text|
      invariant 0 <= index <= |text|
      invariant Run(Scan(rows, row, current, quoted), text[index..]) == Run(START, text)
    {
      var c := text[index];
      ghost var st, rest := Scan(rows, row, current, quoted), text[index..];
      ghost var from := index;
      var hasNext := index + 1 < |text|;
      if c == '"' && quoted && hasNext && text[index + 1] == '"' {
        current := current + "\"";
        index := index + 1;
      } else if c == '"' {
        quoted := !quoted;
      } else if c == ',' && !quoted {
        row := row + [Trim(current)];
        current := "";
      } else if (c == '\n' || c == '\r') && !quoted {
        if c == '\r' && hasNext && text[index + 1] == '\n' {
          index := index + 1;
        }
        row := row + [Trim(current)];
        rows := rows + [row];
        row := [];
        current := "";
      } else {
        current := current + [c];
      }
      index := index + 1;
      assert index == from + Width(st, rest);
      assert rest[Width(st, rest)..] == text[index..];
      assert Scan(rows, row, current, quoted) == Turn(st, rest);
    }
    assert text[index..] == "";
    row := row + [Trim(current)];
    rows := rows + [row];
    var filled := Keep(rows);
    if filled != [] {
      records := ToRecords(filled[0], filled[1..]);
    } else {
      records := [];
    }
  }

  // ---------- the printer ----------

  function Raw(cell: Cell): string {
    match cell
    case Absent => ""
    case Text(text) => text
    case Flag(on) => if on then "true" else "false"
  }

  predicate FormulaLead(s: string) {
    s != "" && s[0] in {'=', '+', '-', '@'}
  }

  /** The formula guard: a leading apostrophe. */
  function Guard(s: string): string {
    if FormulaLead(s) then "'" + s else s
  }

  predicate NeedsQuotes(s: string) {
    exists i :: 0 <= i < |s| && s[i] in {'"', ',', '\n', '\r'}
  }

  function DoubleQuotes(s: string): string {
    if s == "" then "" else (if s[0] == '"' then "\"\"" else [s[0]]) + DoubleQuotes(s[1..])
  }

  function Quote(s: string): string {
    if NeedsQuotes(s) then "\"" + DoubleQuotes(s) + "\"" else s
  }

  function CellOf(row: Row, header: string): Cell {
    if header in row then row[header] else Absent
  }

  /** The text of a printed cell before quoting. */
  function Shown(row: Row, header: string): string {
    Guard(Raw(CellOf(row, header)))
  }

  function ShownCells(row: Row, headers: seq<string>): seq<string> {
    seq(|headers|, i requires 0 <= i < |headers| => Shown(row, headers[i]))
  }

  function Line(cells: seq<string>): string {
    Join(seq(|cells|, i requires 0 <= i < |cells| => Quote(cells[i])), ",")
  }

  function Lines(rows: seq<Row>, headers: seq<string>): seq<string> {
    if rows == [] then [] else [Line(ShownCells(rows[0], headers))] + Lines(rows[1..], headers)
  }

  function ToCsv(rows: seq<Row>, headers: seq<string>): string {
    Join([Join(headers, ",")] + Lines(rows, headers), "\n")
  }

  // ---------- scanning what was printed ----------

  /** Two pieces of text may be scanned separately unless a two-character token joins them. */
  predicate Separable(a: string, b: string) {
    a == "" || b == "" || (!(a[|a| - 1] == '"' && b[0] == '"') && !(a[|a| - 1] == '\r' && b[0] == '\n'))
  }

  lemma {:induction false} RunConcat(st: Scan, a: string, b: string)
    requires Separable(a, b)
    ensures Run(st, a + b) == Run(Run(st, a), b)
    decreases |a|
  {
    if a == "" {
      assert a + b == b;
    } else {
      var w := Width(st, a);
      assert Width(st, a + b) == w;
      assert (a + b)[w..] == a[w..] + b;
      RunConcat(Turn(st, a), a[w..], b);
    }
  }

  lemma {:induction false} RunPlain(st: Scan, s: string)
    requires !NeedsQuotes(s) && !st.quoted
    ensures Run(st, s) == st.(current := st.current + s)
    decreases |s|
  {
    if s == "" {
      assert st.current + s == st.current;
    } else {
      var next := st.(current := st.current + [s[0]]);
      assert s[0] !in {'"', ',', '\n', '\r'};
      RunPlain(next, s[1..]);
      assert next.current + s[1..] == st.current + s;
    }
  }

  /** Inside quotes every character is taken literally and a doubled quote is one quote. */
  lemma {:induction false} RunDoubled(st: Scan, s: string)
    requires st.quoted
    ensures Run(st, DoubleQuotes(s) + "\"") == st.(current := st.current + s, quoted := false)
    decreases |s|
  {
    var text := DoubleQuotes(s) + "\"";
    if s == "" {
      assert text == "\"";
      assert Run(Turn(st, text), text[1..]) == Turn(st, text);
      assert st.current + s == st.current;
    } else {
      var next := st.(current := st.current + [s[0]]);
      var rest := DoubleQuotes(s[1..]) + "\"";
      assert text == (if s[0] == '"' then "\"\"" else [s[0]]) + rest;
      assert Turn(st, text) == next && text[Width(st, text)..] == rest;
      RunDoubled(next, s[1..]);
      assert next.current + s[1..] == st.current + s;
    }
  }

  /** A printed cell is read back as its text, whatever the text. */
  lemma RunQuote(st: Scan, s: string)
    requires !st.quoted && st.current == ""
    ensures Run(st, Quote(s)) == st.(current := s)
  {
    if NeedsQuotes(s) {
      var inner := DoubleQuotes(s) + "\"";
      var q := Quote(s);
      assert q == "\"" + inner;
      assert q[1..] == inner;
      RunDoubled(st.(quoted := true), s);
      assert "" + s == s;
    } else {
      RunPlain(st, s);
      assert "" + s == s;
    }
  }

  function TrimAll(cells: seq<string>): seq<string> {
    seq(|cells|, i requires 0 <= i < |cells| => Trim(cells[i]))
  }

  lemma LineCons(cells: seq<string>)
    requires |cells| > 1
    ensures Line(cells) == Quote(cells[0]) + ("," + Line(cells[1..]))
  {
    var quoted := seq(|cells|, i requires 0 <= i < |cells| => Quote(cells[i]));
    var tail := cells[1..];
    assert quoted[1..] == seq(|tail|, i requires 0 <= i < |tail| => Quote(tail[i]));
    assert Quote(cells[0]) + "," + Line(tail) == Quote(cells[0]) + ("," + Line(tail));
  }

  lemma RunComma(st: Scan, rest: string)
    requires !st.quoted
    ensures Run(st, "," + rest) == Run(EndCell(st), rest)
  {
    assert ("," + rest)[1..] == rest;
  }

  lemma RunNewline(st: Scan, rest: string)
    requires !st.quoted
    ensures Run(st, "\n" + rest) == Run(EndRow(st), rest)
  {
    assert ("\n" + rest)[1..] == rest;
  }

  lemma {:induction false} RunLine(st: Scan, cells: seq<string>)
    requires !st.quoted && st.current == "" && cells != []
    ensures EndCell(Run(st, Line(cells))) == st.(row := st.row + TrimAll(cells))
    ensures !Run(st, Line(cells)).quoted
    decreases |cells|
  {
    hide Run, Quote, Trim;
    RunQuote(st, cells[0]);
    var mid := Run(st, Quote(cells[0]));
    if |cells| == 1 {
      assert Line(cells) == Quote(cells[0]);
      assert TrimAll(cells) == [Trim(cells[0])];
    } else {
      var tail := cells[1..];
      LineCons(cells);
      RunConcat(st, Quote(cells[0]), "," + Line(tail));
      RunComma(mid, Line(tail));
      RunLine(EndCell(mid), tail);
      assert st.row + [Trim(cells[0])] + TrimAll(tail) == st.row + TrimAll(cells);
    }
  }

  /** Lines, each led by a line feed. */
  function Led(lines: seq<string>): string {
    if lines == [] then "" else "\n" + lines[0] + Led(lines[1..])
  }

  lemma {:induction false} JoinLed(first: string, lines: seq<string>)
    ensures Join([first] + lines, "\n") == first + Led(lines)
    decreases |lines|
  {
    if lines == [] {
      assert first + "" == first;
    } else {
      JoinLed(lines[0], lines[1..]);
      assert [lines[0]] + lines[1..] == lines;
      JoinCons(first, lines, "\n");
      assert first + "\n" + (lines[0] + Led(lines[1..])) == first + Led(lines);
    }
  }

  function Body(rows: seq<Row>, headers: seq<string>): string {
    Led(Lines(rows, headers))
  }

  /** What the scanner makes of a row: every shown cell, trimmed. */
  function ReadCells(row: Row, headers: seq<string>): seq<string> {
    TrimAll(ShownCells(row, headers))
  }

  function ReadAll(rows: seq<Row>, headers: seq<string>): seq<seq<string>> {
    if rows == [] then [] else [ReadCells(rows[0], headers)] + ReadAll(rows[1..], headers)
  }

  lemma {:induction false} RunBody(st: Scan, rows: seq<Row>, headers: seq<string>)
    requires !st.quoted && headers != []
    ensures EndRow(Run(st, Body(rows, headers))) == Scan(EndRow(st).rows + ReadAll(rows, headers), [], "", false)
    ensures !Run(st, Body(rows, headers)).quoted
    decreases |rows|
  {
    if rows != [] {
      var cells := ShownCells(rows[0], headers);
      var rest := Body(rows[1..], headers);
      var ended := RunRow(st, cells, rest);
      RunBody(ended, rows[1..], headers);
      var before := EndRow(st).rows;
      var read := ReadAll(rows[1..], headers);
      assert before + [TrimAll(cells)] + read == before + ([TrimAll(cells)] + read);
      assert "\n" + Line(cells) + rest == Body(rows, headers);
    }
  }

  lemma RunRow(st: Scan, cells: seq<string>, rest: string) returns (ended: Scan)
    requires !st.quoted && cells != []
    requires rest == "" || rest[0] == '\n'
    ensures !ended.quoted && EndRow(ended).rows == EndRow(st).rows + [TrimAll(cells)]
    ensures Run(st, "\n" + Line(cells) + rest) == Run(ended, rest)
  {
    var mid := EndRow(st);
    var line := Line(cells);
    ended := Run(mid, line);
    RunLine(mid, cells);
    assert [] + TrimAll(cells) == TrimAll(cells);
    assert "\n" + line + rest == "\n" + (line + rest);
    RunNewline(st, line + rest);
    LineEnd(mid, cells, rest);
  }

  /** A printed line never ends in a bare carriage return, so the line feed after it stands alone. */
  lemma LineEnd(st: Scan, cells: seq<string>, rest: string)
    requires !st.quoted && cells != []
    requires rest == "" || rest[0] == '\n'
    ensures Run(st, Line(cells) + rest) == Run(Run(st, Line(cells)), rest)
  {
    LineLast(cells);
    RunConcat(st, Line(cells), rest);
  }

  lemma {:induction false} LineLast(cells: seq<string>)
    requires cells != []
    ensures Line(cells) != "" ==> Line(cells)[|Line(cells)| - 1] != '\r'
  {
    if |cells| == 1 {
      assert Line(cells) == Quote(cells[0]);
    } else {
      LineCons(cells);
      LineLast(cells[1..]);
    }
  }

  /** Headers the codec can carry: trimmed, no delimiter in any, not all empty. */
  predicate PlainHeaders(headers: seq<string>) {
    && (forall i :: 0 <= i < |headers| ==> Trimmed(headers[i]) && !NeedsQuotes(headers[i]))
    && Filled(headers)
  }

  lemma {:induction false} PlainLine(headers: seq<string>)
    requires forall i :: 0 <= i < |headers| ==> !NeedsQuotes(headers[i])
    ensures Join(headers, ",") == Line(headers)
  {
    assert seq(|headers|, i requires 0 <= i < |headers| => Quote(headers[i])) == headers;
  }

  lemma {:induction false} KeepConcat(a: seq<seq<string>>, b: seq<seq<string>>)
    ensures Keep(a + b) == Keep(a) + Keep(b)
  {
    if a == [] {
      assert a + b == b;
    } else {
      assert (a + b)[1..] == a[1..] + b;
      KeepConcat(a[1..], b);
    }
  }

  /** Trailing white space adds only rows that are dropped. */
  lemma {:induction false} RunBlank(st: Scan, ws: string)
    requires !st.quoted && Blank(ws)
    ensures FilledRows(Run(st, ws)) == FilledRows(st)
    decreases |ws|
  {
    if ws != "" {
      var next, w := Turn(st, ws), Width(st, ws);
      RunBlank(next, ws[w..]);
      if ws[0] == '\n' || ws[0] == '\r' {
        assert EndCell(next).row == [""];
        KeepConcat(EndRow(st).rows, [[""]]);
      } else {
        TrimPadEnd(st.current, [ws[0]]);
      }
    }
  }

  lemma {:induction false} BlankKeepsQuoted(st: Scan, ws: string)
    requires Blank(ws)
    ensures Run(st, ws).quoted == st.quoted
    decreases |ws|
  {
    if ws != "" {
      BlankKeepsQuoted(Turn(st, ws), ws[Width(st, ws)..]);
    }
  }

  /** Trimming the end of the text never changes which rows survive. */
  lemma TrimEndKeepsRows(text: string)
    requires !Run(START, text).quoted
    ensures FilledRows(Run(START, TrimEnd(text))) == FilledRows(Run(START, text))
  {
    var tail := TrimEndSplit(text);
    RunConcat(START, TrimEnd(text), tail);
    BlankKeepsQuoted(Run(START, TrimEnd(text)), tail);
    RunBlank(Run(START, TrimEnd(text)), tail);
  }

  // ---------- main results ----------

  /** The record a printed row is read back as. */
  function ReadRecord(row: Row, headers: seq<string>): Record {
    map h | h in headers :: Trim(Shown(row, h))
  }

  predicate Survives(row: Row, headers: seq<string>) {
    exists h :: h in headers && Trim(Shown(row, h)) != ""
  }

  function ReadRecords(rows: seq<Row>, headers: seq<string>): seq<Record> {
    if rows == [] then []
    else (if Survives(rows[0], headers) then [ReadRecord(rows[0], headers)] else []) + ReadRecords(rows[1..], headers)
  }

  lemma FilledIffSurvives(row: Row, headers: seq<string>)
    ensures Filled(ReadCells(row, headers)) <==> Survives(row, headers)
  {
    var cells := ReadCells(row, headers);
    if h :| h in headers && Trim(Shown(row, h)) != "" {
      var i :| 0 <= i < |headers| && headers[i] == h;
      assert cells[i] != "";
    }
    if i :| 0 <= i < |cells| && cells[i] != "" {
      assert headers[i] in headers && Trim(Shown(row, headers[i])) != "";
    }
  }

  lemma {:induction false} ToRecordReads(row: Row, headers: seq<string>, n: nat)
    requires n <= |headers| && forall i :: 0 <= i < |headers| ==> Trimmed(headers[i])
    ensures ToRecord(headers, ReadCells(row, headers), n) == ReadRecord(row, headers[..n])
  {
    hide Trim, Shown;
    if n > 0 {
      var h := headers[n - 1];
      ToRecordReads(row, headers, n - 1);
      TrimIdentity(h);
      assert CellAt(ReadCells(row, headers), n - 1) == Trim(Shown(row, h));
      ReadRecordSnoc(row, headers[..n - 1], h);
      assert headers[..n] == headers[..n - 1] + [h];
    }
  }

  lemma ReadRecordSnoc(row: Row, headers: seq<string>, h: string)
    ensures ReadRecord(row, headers + [h]) == ReadRecord(row, headers)[h := Trim(Shown(row, h))]
  {
  }

  lemma {:induction false} ToRecordsConcat(headers: seq<string>, a: seq<seq<string>>, b: seq<seq<string>>)
    ensures ToRecords(headers, a + b) == ToRecords(headers, a) + ToRecords(headers, b)
  {
    if a == [] {
      assert a + b == b;
    } else {
      assert (a + b)[1..] == a[1..] + b;
      ToRecordsConcat(headers, a[1..], b);
    }
  }

  lemma RowReads(row: Row, headers: seq<string>)
    requires PlainHeaders(headers)
    ensures ToRecords(headers, Keep([ReadCells(row, headers)]))
         == if Survives(row, headers) then [ReadRecord(row, headers)] else []
  {
    var cells := ReadCells(row, headers);
    FilledIffSurvives(row, headers);
    ToRecordReads(row, headers, |headers|);
    assert headers[..|headers|] == headers;
    assert Keep([cells]) == if Filled(cells) then [cells] else [];
  }

  lemma {:induction false} ToRecordsReads(rows: seq<Row>, headers: seq<string>)
    requires PlainHeaders(headers)
    ensures ToRecords(headers, Keep(ReadAll(rows, headers))) == ReadRecords(rows, headers)
  {
    if rows != [] {
      var cells, rest := [ReadCells(rows[0], headers)], ReadAll(rows[1..], headers);
      RowReads(rows[0], headers);
      ToRecordsReads(rows[1..], headers);
      KeepConcat(cells, rest);
      ToRecordsConcat(headers, Keep(cells), Keep(rest));
    }
  }

  /** The printed table starts with a character that trimming leaves alone. */
  lemma {:induction false} HeaderStart(headers: seq<string>)
    requires PlainHeaders(headers)
    ensures Join(headers, ",") != "" && !IsSpace(Join(headers, ",")[0])
  {
    if |headers| > 1 {
      assert Join(headers, ",") == headers[0] + ("," + Join(headers[1..], ","));
    }
  }

  lemma HeaderRow(headers: seq<string>)
    requires PlainHeaders(headers)
    ensures EndRow(Run(START, Join(headers, ","))).rows == [headers] && !Run(START, Join(headers, ",")).quoted
  {
    PlainLine(headers);
    RunLine(START, headers);
    forall i | 0 <= i < |headers| ensures TrimAll(headers)[i] == headers[i] {
      TrimIdentity(headers[i]);
    }
    assert [] + TrimAll(headers) == headers;
  }

  lemma RunToCsv(rows: seq<Row>, headers: seq<string>)
    requires PlainHeaders(headers)
    ensures FilledRows(Run(START, ToCsv(rows, headers))) == [headers] + Keep(ReadAll(rows, headers))
    ensures !Run(START, ToCsv(rows, headers)).quoted
  {
    var head, body := Join(headers, ","), Body(rows, headers);
    JoinLed(head, Lines(rows, headers));
    HeaderRow(headers);
    PlainLine(headers);
    LineLast(headers);
    RunConcat(START, head, body);
    RunBody(Run(START, head), rows, headers);
    KeepConcat([headers], ReadAll(rows, headers));
    assert Keep([headers]) == [headers];
  }

  /**
   Printing and parsing any table: every row that shows something comes back, in order, with every
   cell guarded and trimmed; nothing else comes back.
   */
  lemma RoundTrip(rows: seq<Row>, headers: seq<string>)
    requires PlainHeaders(headers)
    ensures Parse(ToCsv(rows, headers)) == ReadRecords(rows, headers)
  {
    var text := ToCsv(rows, headers);
    JoinLed(Join(headers, ","), Lines(rows, headers));
    HeaderStart(headers);
    assert text[0] == Join(headers, ",")[0];
    assert WithoutBom(text) == text && TrimStart(text) == text;
    RunToCsv(rows, headers);
    TrimEndKeepsRows(text);
    var kept := FilledRows(Run(START, Trim(text)));
    assert kept == [headers] + Keep(ReadAll(rows, headers));
    assert kept[0] == headers && kept[1..] == Keep(ReadAll(rows, headers));
    ToRecordsReads(rows, headers);
    assert Filled(headers);
  }

  /** A cell comes back as it was exactly when it is trimmed and does not look like a formula. */
  lemma CellSurvivesIff(s: string)
    ensures Trim(Guard(s)) == s <==> Trimmed(s) && !FormulaLead(s)
  {
    TrimIdentity(s);
    if FormulaLead(s) {
      TrimKeepsFirst(Guard(s));
    }
  }

  /** Rows made of safe cells are returned exactly, without the rows that are entirely empty. */
  lemma SafeRoundTrip(rows: seq<Row>, headers: seq<string>)
    requires PlainHeaders(headers)
    requires forall i, h :: 0 <= i < |rows| && h in headers ==>
               Trimmed(Raw(CellOf(rows[i], h))) && !FormulaLead(Raw(CellOf(rows[i], h)))
    ensures Parse(ToCsv(rows, headers)) == PlainRecords(rows, headers)
  {
    RoundTrip(rows, headers);
    PlainReads(rows, headers);
  }

  function PlainRecord(row: Row, headers: seq<string>): Record {
    map h | h in headers :: Raw(CellOf(row, h))
  }

  function PlainRecords(rows: seq<Row>, headers: seq<string>): seq<Record> {
    if rows == [] then []
    else (if exists h :: h in headers && Raw(CellOf(rows[0], h)) != "" then [PlainRecord(rows[0], headers)] else [])
         + PlainRecords(rows[1..], headers)
  }

  lemma {:induction false} PlainReads(rows: seq<Row>, headers: seq<string>)
    requires forall i, h :: 0 <= i < |rows| && h in headers ==>
               Trimmed(Raw(CellOf(rows[i], h))) && !FormulaLead(Raw(CellOf(rows[i], h)))
    ensures ReadRecords(rows, headers) == PlainRecords(rows, headers)
  {
    if rows != [] {
      var row := rows[0];
      forall h | h in headers ensures Trim(Shown(row, h)) == Raw(CellOf(row, h)) {
        CellSurvivesIff(Raw(CellOf(row, h)));
      }
      assert ReadRecord(row, headers) == PlainRecord(row, headers);
      PlainReads(rows[1..], headers);
    }
  }

  // ---------- printing again what was read ----------

  function AsRow(r: Record): Row {
    map h | h in r :: Text(r[h])
  }

  function AsRows(records: seq<Record>): seq<Row> {
    if records == [] then [] else [AsRow(records[0])] + AsRows(records[1..])
  }

  /** The guard looks at the cell before it is trimmed; this cell hides a formula behind white space. */
  predicate HiddenFormula(s: string) {
    FormulaLead(Trim(s)) && !FormulaLead(s)
  }

  /** A second print and parse changes a cell exactly when the first one uncovered a formula. */
  lemma CellSettlesIff(s: string)
    ensures Trim(Guard(Trim(Guard(s)))) == Trim(Guard(s)) <==> !HiddenFormula(s)
  {
    var once := Trim(Guard(s));
    var _, _ := TrimSplit(Guard(s));
    CellSurvivesIff(once);
    if FormulaLead(s) {
      TrimKeepsFirst(Guard(s));
    }
  }

  lemma HiddenFormulaExists()
    ensures HiddenFormula(" =1")
    ensures Trim(Guard(Trim(Guard(" =1")))) != Trim(Guard(" =1"))
  {
    assert " =1"[1..] == "=1";
    assert TrimStart(" =1") == "=1" && Trim(" =1") == "=1";
    CellSettlesIff(" =1");
  }

  predicate NoHiddenFormula(row: Row, headers: seq<string>) {
    forall h :: h in headers ==> !HiddenFormula(Raw(CellOf(row, h)))
  }

  /** A row that was read shows something again when it is printed. */
  lemma ReadRowSurvives(row: Row, headers: seq<string>)
    requires Survives(row, headers)
    ensures Survives(AsRow(ReadRecord(row, headers)), headers)
  {
    hide Trim, Guard;
    var h :| h in headers && Trim(Shown(row, h)) != "";
    var cell := Trim(Shown(row, h));
    NothingLost(Shown(row, h));
    assert Trim(Shown(AsRow(ReadRecord(row, headers)), h)) == Trim(Guard(cell));
  }

  lemma NothingLost(s: string)
    requires Trim(s) != ""
    ensures Trim(Guard(Trim(s))) != ""
  {
    var _, _ := TrimSplit(s);
    TrimIdentity(Trim(s));
    if FormulaLead(Trim(s)) {
      TrimKeepsFirst(Guard(Trim(s)));
    }
  }

  /** The second record of a row is the first exactly when no cell of the row hid a formula. */
  lemma RowSettlesIff(row: Row, headers: seq<string>)
    ensures ReadRecord(AsRow(ReadRecord(row, headers)), headers) == ReadRecord(row, headers) <==>
        NoHiddenFormula(row, headers)
  {
    hide Trim, Guard, HiddenFormula;
    var once := ReadRecord(row, headers);
    var twice := ReadRecord(AsRow(once), headers);
    forall h | h in headers ensures twice[h] == once[h] <==> !HiddenFormula(Raw(CellOf(row, h))) {
      CellSettlesIff(Raw(CellOf(row, h)));
    }
  }

  /** A hidden formula shows, so its row is never dropped. */
  lemma HiddenFormulaShows(row: Row, headers: seq<string>)
    ensures !Survives(row, headers) ==> NoHiddenFormula(row, headers)
  {
    forall h | h in headers && HiddenFormula(Raw(CellOf(row, h))) ensures Trim(Shown(row, h)) != "" {
    }
  }

  lemma {:induction false} SecondReadIff(rows: seq<Row>, headers: seq<string>)
    ensures var once := ReadRecords(rows, headers);
            var twice := ReadRecords(AsRows(once), headers);
            && |twice| == |once|
            && (twice == once <==> forall i :: 0 <= i < |rows| ==> NoHiddenFormula(rows[i], headers))
  {
    hide NoHiddenFormula, Survives, ReadRecord, AsRow;
    if rows != [] {
      var row, rest := rows[0], ReadRecords(rows[1..], headers);
      SecondReadIff(rows[1..], headers);
      HiddenFormulaShows(row, headers);
      assert forall i :: 0 < i < |rows| ==> rows[i] == rows[1..][i - 1];
      if Survives(row, headers) {
        var record := ReadRecord(row, headers);
        ReadRowSurvives(row, headers);
        RowSettlesIff(row, headers);
        assert ([record] + rest)[1..] == rest;
        assert ([AsRow(record)] + AsRows(rest))[1..] == AsRows(rest);
        var again := ReadRecords(AsRows(rest), headers);
        assert ([ReadRecord(AsRow(record), headers)] + again)[1..] == again;
      } else {
        assert [] + rest == rest;
      }
    }
  }

  /** Printing what was read and reading it again changes nothing exactly when no cell of the table hid a formula. */
  lemma ReprintIsFixpointIff(rows: seq<Row>, headers: seq<string>)
    requires PlainHeaders(headers)
    ensures var records := Parse(ToCsv(rows, headers));
            && |Parse(ToCsv(AsRows(records), headers))| == |records|
            && (Parse(ToCsv(AsRows(records), headers)) == records
                <==> forall i :: 0 <= i < |rows| ==> NoHiddenFormula(rows[i], headers))
  {
    RoundTrip(rows, headers);
    RoundTrip(AsRows(ReadRecords(rows, headers)), headers);
    SecondReadIff(rows, headers);
  }

  /** What was read is trimmed, so it hides nothing any more. */
  lemma {:induction false} ReadHidesNothing(rows: seq<Row>, headers: seq<string>)
    ensures forall r :: r in AsRows(ReadRecords(rows, headers)) ==> NoHiddenFormula(r, headers)
  {
    hide NoHiddenFormula, ReadRecord, AsRow, Survives, Trim, Guard;
    if rows != [] {
      ReadHidesNothing(rows[1..], headers);
      ReadRowHidesNothing(rows[0], headers);
      var rest := ReadRecords(rows[1..], headers);
      if Survives(rows[0], headers) {
        assert ([ReadRecord(rows[0], headers)] + rest)[1..] == rest;
        assert AsRows(ReadRecords(rows, headers)) == [AsRow(ReadRecord(rows[0], headers))] + AsRows(rest);
      } else {
        assert [] + rest == rest;
      }
    }
  }

  lemma ReadRowHidesNothing(row: Row, headers: seq<string>)
    ensures NoHiddenFormula(AsRow(ReadRecord(row, headers)), headers)
  {
    hide Guard;
    forall h | h in headers ensures !HiddenFormula(Raw(CellOf(AsRow(ReadRecord(row, headers)), h))) {
      var _, _ := TrimSplit(Shown(row, h));
      TrimIdentity(Trim(Shown(row, h)));
    }
  }

  /** Every table settles after one more round, whatever its cells hid. */
  lemma SecondReprintSettles(rows: seq<Row>, headers: seq<string>)
    requires PlainHeaders(headers)
    ensures var records := Parse(ToCsv(rows, headers));
            var again := Parse(ToCsv(AsRows(records), headers));
            Parse(ToCsv(AsRows(again), headers)) == again
  {
    RoundTrip(rows, headers);
    ReadHidesNothing(rows, headers);
    ReprintIsFixpointIff(AsRows(ReadRecords(rows, headers)), headers);
  }

  // ---------- the printed text itself ----------

  predicate IsDelimiter(c: char) {
    c in {',', '\n'}
  }

  /** The text ends here, or goes on with a delimiter. */
  predicate Ends(rest: string) {
    rest == "" || IsDelimiter(rest[0])
  }

  /** What follows the opening quote of a cell. */
  function Rest(s: string, rest: string): string {
    DoubleQuotes(s) + "\"" + rest
  }

  lemma RestStarts(a: string, x: string)
    requires Ends(x)
    ensures var s := Rest(a, x);
            if a == "" then s[0] == '"' && s[1..] == x && (|s| == 1 || s[1] != '"')
            else s[0] == a[0] && |s| > 1 && (a[0] == '"' ==> s[1] == '"')
                 && s[if a[0] == '"' then 2 else 1..] == Rest(a[1..], x)
  {
    if a != "" {
      assert Rest(a, x) == (if a[0] == '"' then "\"\"" else [a[0]]) + Rest(a[1..], x);
    }
  }

  /** The text inside quotes ends at its first quote that is not doubled. */
  lemma {:induction false} RestSplits(a: string, b: string, x: string, y: string)
    requires Ends(x) && Ends(y) && Rest(a, x) == Rest(b, y)
    ensures a == b && x == y
    decreases |a|
  {
    hide Rest, Ends;
    RestStarts(a, x);
    RestStarts(b, y);
    if a != "" && b != "" {
      RestSplits(a[1..], b[1..], x, y);
      assert a == [a[0]] + a[1..] && b == [b[0]] + b[1..];
    }
  }

  lemma PlainIsNotLonger(a: string, b: string, x: string, y: string)
    requires !NeedsQuotes(b) && Ends(x) && a + x == b + y
    ensures |b| <= |a|
  {
    if |a| < |b| {
      NextCharacter(a, b, x, y);
    }
  }

  lemma NextCharacter(a: string, b: string, x: string, y: string)
    requires a + x == b + y && |a| < |b|
    ensures x != "" && b[|a|] == x[0]
  {
    assert (a + x)[|a|] == (b + y)[|a|];
  }

  lemma PlainSplits(a: string, b: string, x: string, y: string)
    requires !NeedsQuotes(a) && !NeedsQuotes(b) && Ends(x) && Ends(y) && a + x == b + y
    ensures a == b && x == y
  {
    PlainIsNotLonger(a, b, x, y);
    PlainIsNotLonger(b, a, y, x);
    assert a == (a + x)[..|a|] && b == (b + y)[..|b|] && x == (a + x)[|a|..] && y == (b + y)[|b|..];
  }

  /** A printed cell can be told from what follows it. */
  lemma QuoteSplits(a: string, b: string, x: string, y: string)
    requires Ends(x) && Ends(y) && Quote(a) + x == Quote(b) + y
    ensures a == b && x == y
  {
    QuoteStarts(a, x);
    QuoteStarts(b, y);
    QuoteRest(a, x);
    QuoteRest(b, y);
    hide NeedsQuotes, Rest, Quote;
    if NeedsQuotes(a) {
      RestSplits(a, b, x, y);
    } else {
      PlainSplits(a, b, x, y);
    }
  }

  lemma QuoteRest(a: string, x: string)
    ensures if NeedsQuotes(a) then Quote(a) + x != "" && (Quote(a) + x)[1..] == Rest(a, x)
            else Quote(a) + x == a + x
  {
    hide NeedsQuotes, DoubleQuotes;
    assert NeedsQuotes(a) ==> Quote(a) + x == "\"" + Rest(a, x);
  }

  lemma QuoteStarts(a: string, x: string)
    requires Ends(x)
    ensures NeedsQuotes(a) <==> Quote(a) + x != "" && (Quote(a) + x)[0] == '"'
  {
  }

  /** A printed line of a known number of cells can be told from what follows it. */
  lemma {:induction false} LineSplits(a: seq<string>, b: seq<string>, x: string, y: string)
    requires |a| == |b| > 0 && (x == "" || x[0] == '\n') && (y == "" || y[0] == '\n')
    requires Line(a) + x == Line(b) + y
    ensures a == b && x == y
  {
    hide Quote;
    if |a| == 1 {
      assert Line(a) == Quote(a[0]) && Line(b) == Quote(b[0]);
      QuoteSplits(a[0], b[0], x, y);
    } else {
      LineCons(a);
      LineCons(b);
      var s, t := "," + Line(a[1..]) + x, "," + Line(b[1..]) + y;
      assert Quote(a[0]) + s == Line(a) + x && Quote(b[0]) + t == Line(b) + y;
      QuoteSplits(a[0], b[0], s, t);
      assert s[1..] == Line(a[1..]) + x && t[1..] == Line(b[1..]) + y;
      LineSplits(a[1..], b[1..], x, y);
      assert a == [a[0]] + a[1..] && b == [b[0]] + b[1..];
    }
  }

  ghost predicate ShowSame(a: seq<Row>, b: seq<Row>, headers: seq<string>) {
    |a| == |b| && forall i :: 0 <= i < |a| ==> ShownCells(a[i], headers) == ShownCells(b[i], headers)
  }

  /** Two tables print the same text exactly when they show the same cells. */
  lemma {:induction false} SameTextIff(a: seq<Row>, b: seq<Row>, headers: seq<string>)
    requires headers != []
    ensures Body(a, headers) == Body(b, headers) <==> ShowSame(a, b, headers)
    decreases |a|
  {
    hide ShownCells, Line, Body;
    BodyStarts(a, headers);
    BodyStarts(b, headers);
    if a != [] && b != [] {
      SameTextIff(a[1..], b[1..], headers);
      var x, y := Body(a[1..], headers), Body(b[1..], headers);
      var cells, other := ShownCells(a[0], headers), ShownCells(b[0], headers);
      OneCellPerHeader(a[0], headers);
      OneCellPerHeader(b[0], headers);
      BodyStarts(a[1..], headers);
      BodyStarts(b[1..], headers);
      ShowSameCons(a, b, headers);
      hide ShowSame;
      if Body(a, headers) == Body(b, headers) {
        LineSplits(cells, other, x, y);
      }
    }
  }

  lemma OneCellPerHeader(row: Row, headers: seq<string>)
    ensures |ShownCells(row, headers)| == |headers|
  {
  }

  lemma BodyStarts(rows: seq<Row>, headers: seq<string>)
    ensures if rows == [] then Body(rows, headers) == ""
            else Body(rows, headers) == "\n" + (Line(ShownCells(rows[0], headers)) + Body(rows[1..], headers))
                 && Body(rows, headers)[1..] == Line(ShownCells(rows[0], headers)) + Body(rows[1..], headers)
  {
    hide ShownCells, Line;
    if rows != [] {
      assert Body(rows, headers) == "\n" + (Line(ShownCells(rows[0], headers)) + Body(rows[1..], headers));
    }
  }

  lemma ShowSameCons(a: seq<Row>, b: seq<Row>, headers: seq<string>)
    requires a != [] && b != []
    ensures ShowSame(a, b, headers)
        <==> ShownCells(a[0], headers) == ShownCells(b[0], headers) && ShowSame(a[1..], b[1..], headers)
  {
    hide ShownCells;
    if ShownCells(a[0], headers) == ShownCells(b[0], headers) && ShowSame(a[1..], b[1..], headers) {
      forall i | 0 <= i < |a| ensures ShownCells(a[i], headers) == ShownCells(b[i], headers) {
        if i > 0 {
          assert a[i] == a[1..][i - 1] && b[i] == b[1..][i - 1];
        }
      }
    }
    if ShowSame(a, b, headers) {
      forall i | 0 <= i < |a| - 1 ensures ShownCells(a[1..][i], headers) == ShownCells(b[1..][i], headers) {
        assert a[1..][i] == a[i + 1] && b[1..][i] == b[i + 1];
      }
    }
  }

  /** No shown cell of the row has white space at its ends. */
  predicate ShowsTrimmed(row: Row, headers: seq<string>) {
    forall h :: h in headers ==> Trimmed(Shown(row, h))
  }

  lemma GuardAgainIff(s: string)
    ensures Guard(Trim(Guard(s))) == Guard(s) <==> Trimmed(Guard(s))
  {
    TrimIdentity(Guard(s));
    var _, _ := TrimSplit(Guard(s));
    if FormulaLead(s) {
      TrimKeepsFirst(Guard(s));
    }
  }

  lemma RowPrintsSameIff(row: Row, headers: seq<string>)
    ensures ShownCells(AsRow(ReadRecord(row, headers)), headers) == ShownCells(row, headers)
        <==> ShowsTrimmed(row, headers)
  {
    hide Guard, Trim, Trimmed;
    var again := AsRow(ReadRecord(row, headers));
    forall h | h in headers ensures Shown(again, h) == Shown(row, h) <==> Trimmed(Shown(row, h)) {
      GuardAgainIff(Raw(CellOf(row, h)));
    }
    if ShownCells(again, headers) == ShownCells(row, headers) {
      forall h | h in headers ensures Trimmed(Shown(row, h)) {
        var i :| 0 <= i < |headers| && headers[i] == h;
        assert ShownCells(again, headers)[i] == ShownCells(row, headers)[i];
      }
    }
  }

  lemma {:induction false} FewRead(rows: seq<Row>, headers: seq<string>)
    ensures |ReadRecords(rows, headers)| <= |rows|
    ensures |ReadRecords(rows, headers)| == |rows| ==> forall i :: 0 <= i < |rows| ==> Survives(rows[i], headers)
  {
    hide Survives, ReadRecord;
    if rows != [] {
      FewRead(rows[1..], headers);
      assert forall i :: 0 < i < |rows| ==> rows[i] == rows[1..][i - 1];
    }
  }

  lemma {:induction false} AllRead(rows: seq<Row>, headers: seq<string>)
    requires forall i :: 0 <= i < |rows| ==> Survives(rows[i], headers)
    ensures var again := AsRows(ReadRecords(rows, headers));
            |again| == |rows| && forall i :: 0 <= i < |rows| ==> again[i] == AsRow(ReadRecord(rows[i], headers))
  {
    hide Survives, ReadRecord, AsRow;
    if rows != [] {
      AllRead(rows[1..], headers);
      assert ([ReadRecord(rows[0], headers)] + ReadRecords(rows[1..], headers))[1..] == ReadRecords(rows[1..], headers);
    }
  }

  lemma {:induction false} AsRowsLength(records: seq<Record>)
    ensures |AsRows(records)| == |records|
  {
    if records != [] {
      AsRowsLength(records[1..]);
    }
  }

  /**
   Printing what was read gives the same text again if and only if every row of the table shows something
   and no cell, as it is shown, has white space at its ends.
   */
  lemma ReprintIsSameTextIff(rows: seq<Row>, headers: seq<string>)
    requires PlainHeaders(headers)
    ensures ToCsv(AsRows(Parse(ToCsv(rows, headers))), headers) == ToCsv(rows, headers)
        <==> forall i :: 0 <= i < |rows| ==> Survives(rows[i], headers) && ShowsTrimmed(rows[i], headers)
  {
    hide Survives, ShowsTrimmed, ReadRecord, AsRow, ShownCells, Parse;
    var again, head := AsRows(ReadRecords(rows, headers)), Join(headers, ",");
    RoundTrip(rows, headers);
    JoinLed(head, Lines(rows, headers));
    JoinLed(head, Lines(again, headers));
    assert ToCsv(rows, headers)[|head|..] == Body(rows, headers)
        && ToCsv(again, headers)[|head|..] == Body(again, headers);
    SameTextIff(again, rows, headers);
    AsRowsLength(ReadRecords(rows, headers));
    FewRead(rows, headers);
    if forall i :: 0 <= i < |rows| ==> Survives(rows[i], headers) {
      AllRead(rows, headers);
      forall i | 0 <= i < |rows|
        ensures ShownCells(again[i], headers) == ShownCells(rows[i], headers) <==> ShowsTrimmed(rows[i], headers)
      {
        RowPrintsSameIff(rows[i], headers);
      }
    }
  }
}
