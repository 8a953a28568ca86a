/**
 What apps/api/src/import-export/csv.ts reads of any well written file, not only of those it prints: cells of plain
 and quoted pieces, lines ended in any of the three ways, and the records these make.
 */
module CsvLaws {
  import opened Csv
  import opened Text

  // ---------- well written files ----------

  /** A stretch of a cell, outside quotes or inside. */
  datatype Piece = Plain(text: string) | Quoted(text: string)

  type Written = seq<Piece>

  /** A line of a file and how it ends. */
  datatype Ended = Ended(cells: seq<Written>, ending: string)

  function PieceText(p: Piece): string {
    match p
    case Plain(text) => text
    case Quoted(text) => "\"" + DoubleQuotes(text) + "\""
  }

  function TextOf(cell: Written): string {
    if cell == [] then "" else PieceText(cell[0]) + TextOf(cell[1..])
  }

  /** What a cell means: the text of its pieces. */
  function Meaning(cell: Written): string {
    if cell == [] then "" else cell[0].text + Meaning(cell[1..])
  }

  function LineOf(cells: seq<Written>): string {
    if cells == [] then ""
    else if |cells| == 1 then TextOf(cells[0])
    else TextOf(cells[0]) + ("," + LineOf(cells[1..]))
  }

  /** Outside quotes there is no delimiter, and two quoted pieces do not touch. */
  ghost predicate WellFormed(cell: Written) {
    && (forall i :: 0 <= i < |cell| && cell[i].Plain? ==>
          cell[i].text != "" && forall j :: 0 <= j < |cell[i].text| ==> cell[i].text[j] !in {'"', ',', '\n', '\r'})
    && forall i :: 0 < i < |cell| ==> cell[i - 1].Plain? || cell[i].Plain?
  }

  ghost predicate WellFormedLine(cells: seq<Written>) {
    cells != [] && forall i :: 0 <= i < |cells| ==> WellFormed(cells[i])
  }

  function FileText(lines: seq<Ended>, last: seq<Written>): string {
    if lines == [] then LineOf(last)
    else LineOf(lines[0].cells) + (lines[0].ending + FileText(lines[1..], last))
  }

  /** Lines end in any of the three ways; what follows a carriage return does not make it another one. */
  ghost predicate WellWritten(lines: seq<Ended>, last: seq<Written>) {
    && WellFormedLine(last)
    && (forall i :: 0 <= i < |lines| ==> WellFormedLine(lines[i].cells) && lines[i].ending in {"\n", "\r", "\r\n"})
    && forall i :: 0 <= i < |lines| && lines[i].ending == "\r" ==>
         FileText(lines[i + 1..], last) == "" || FileText(lines[i + 1..], last)[0] != '\n'
  }

  // ---------- the scanner reads them as they are meant ----------

  lemma PieceReads(st: Scan, p: Piece)
    requires !st.quoted && (p.Plain? ==> !NeedsQuotes(p.text))
    ensures Run(st, PieceText(p)) == st.(current := st.current + p.text)
  {
    match p
    case Plain(text) => RunPlain(st, text);
    case Quoted(text) =>
      var inner := DoubleQuotes(text) + "\"";
      assert PieceText(p) == "\"" + inner && PieceText(p)[1..] == inner;
      RunDoubled(st.(quoted := true), text);
      assert Width(st, PieceText(p)) == 1 && Turn(st, PieceText(p)) == st.(quoted := true);
  }

  lemma WellFormedTail(cell: Written)
    requires WellFormed(cell) && cell != []
    ensures WellFormed(cell[1..]) && (cell[0].Plain? ==> !NeedsQuotes(cell[0].text) && cell[0].text != "")
    ensures |cell| > 1 ==> cell[0].Plain? || cell[1].Plain?
  {
  }

  /** How the text of a cell begins and ends. */
  lemma {:induction false} TextEdges(cell: Written)
    requires WellFormed(cell)
    ensures TextOf(cell) == "" <==> cell == []
    ensures cell != [] ==> (TextOf(cell)[0] == '"' <==> cell[0].Quoted?)
    ensures cell != [] ==> TextOf(cell)[|TextOf(cell)| - 1] !in {'\r', '\n', ','}
  {
    if cell != [] {
      WellFormedTail(cell);
      TextEdges(cell[1..]);
      PieceEdges(cell[0]);
    }
  }

  lemma PieceEdges(p: Piece)
    requires p.Plain? ==> !NeedsQuotes(p.text) && p.text != ""
    ensures PieceText(p) != "" && (PieceText(p)[0] == '"' <==> p.Quoted?)
    ensures PieceText(p)[|PieceText(p)| - 1] !in {'\r', '\n', ','}
    ensures p.Plain? ==> PieceText(p)[|PieceText(p)| - 1] != '"'
  {
  }

  lemma RunEmpty(st: Scan)
    ensures Run(st, "") == st && st.current + "" == st.current
  {
  }

  /** A piece and what follows it in its cell are scanned one after the other. */
  lemma PieceApart(cell: Written)
    requires WellFormed(cell) && cell != []
    ensures Separable(PieceText(cell[0]), TextOf(cell[1..]))
    ensures WellFormed(cell[1..]) && (cell[0].Plain? ==> !NeedsQuotes(cell[0].text))
  {
    WellFormedTail(cell);
    PieceEdges(cell[0]);
    TextEdges(cell[1..]);
    hide PieceText, WellFormed, NeedsQuotes, TextOf;
  }

  lemma {:induction false} CellReads(st: Scan, cell: Written)
    requires !st.quoted && WellFormed(cell)
    ensures Run(st, TextOf(cell)) == st.(current := st.current + Meaning(cell))
    decreases |cell|
  {
    hide PieceText, WellFormed, Run, Separable, NeedsQuotes;
    RunEmpty(st);
    if cell != [] {
      PieceApart(cell);
      PieceReads(st, cell[0]);
      var next := st.(current := st.current + cell[0].text);
      RunConcat(st, PieceText(cell[0]), TextOf(cell[1..]));
      CellReads(next, cell[1..]);
      assert next.current + Meaning(cell[1..]) == st.current + (cell[0].text + Meaning(cell[1..]));
    }
  }

  function Meanings(cells: seq<Written>): seq<string> {
    seq(|cells|, i requires 0 <= i < |cells| => Trim(Meaning(cells[i])))
  }

  lemma {:induction false} LineEdge(cells: seq<Written>)
    requires WellFormedLine(cells)
    ensures LineOf(cells) != "" ==> LineOf(cells)[|LineOf(cells)| - 1] !in {'\r', '\n'}
    decreases |cells|
  {
    hide WellFormed;
    TextEdges(cells[0]);
    if |cells| > 1 {
      LineEdge(cells[1..]);
    }
  }

  lemma {:induction false} LineReads(st: Scan, cells: seq<Written>)
    requires !st.quoted && st.current == "" && WellFormedLine(cells)
    ensures EndCell(Run(st, LineOf(cells))) == st.(row := st.row + Meanings(cells))
    ensures !Run(st, LineOf(cells)).quoted
    decreases |cells|
  {
    hide Run, TextOf, WellFormed;
    CellReads(st, cells[0]);
    assert "" + Meaning(cells[0]) == Meaning(cells[0]);
    if |cells| == 1 {
      assert Meanings(cells) == [Trim(Meaning(cells[0]))];
    } else {
      var mid := Run(st, TextOf(cells[0]));
      RunConcat(st, TextOf(cells[0]), "," + LineOf(cells[1..]));
      RunComma(mid, LineOf(cells[1..]));
      LineReads(EndCell(mid), cells[1..]);
      assert st.row + [Trim(Meaning(cells[0]))] + Meanings(cells[1..]) == st.row + Meanings(cells);
    }
  }

  lemma EndingReads(st: Scan, ending: string, rest: string)
    requires !st.quoted && ending in {"\n", "\r", "\r\n"}
    requires ending == "\r" ==> rest == "" || rest[0] != '\n'
    ensures Run(st, ending + rest) == Run(EndRow(st), rest)
  {
    var s := ending + rest;
    assert s[|ending|..] == rest;
    assert Width(st, s) == |ending| && Turn(st, s) == EndRow(st);
  }

  function RowsOf(lines: seq<Ended>, last: seq<Written>): seq<seq<string>> {
    if lines == [] then [Meanings(last)] else [Meanings(lines[0].cells)] + RowsOf(lines[1..], last)
  }

  lemma WellWrittenTail(lines: seq<Ended>, last: seq<Written>)
    requires WellWritten(lines, last) && lines != []
    ensures WellWritten(lines[1..], last) && WellFormedLine(lines[0].cells) && lines[0].ending in {"\n", "\r", "\r\n"}
    ensures lines[0].ending == "\r" ==> FileText(lines[1..], last) == "" || FileText(lines[1..], last)[0] != '\n'
  {
    hide WellFormedLine, FileText;
    var rest := lines[1..];
    forall i | 0 <= i < |rest| && rest[i].ending == "\r"
      ensures FileText(rest[i + 1..], last) == "" || FileText(rest[i + 1..], last)[0] != '\n'
    {
      assert lines[i + 1] == rest[i] && lines[i + 1 + 1..] == rest[i + 1..];
    }
  }

  lemma {:induction false} FileReads(st: Scan, lines: seq<Ended>, last: seq<Written>)
    requires !st.quoted && st.current == "" && st.row == [] && WellWritten(lines, last)
    ensures EndRow(Run(st, FileText(lines, last))).rows == st.rows + RowsOf(lines, last)
    ensures !Run(st, FileText(lines, last)).quoted
    decreases |lines|
  {
    hide Run, LineOf, Meanings, WellFormedLine;
    if lines == [] {
      LineReads(st, last);
      assert [] + Meanings(last) == Meanings(last);
    } else {
      var cells, ending, rest := lines[0].cells, lines[0].ending, FileText(lines[1..], last);
      WellWrittenTail(lines, last);
      LineReads(st, cells);
      assert [] + Meanings(cells) == Meanings(cells);
      LineEdge(cells);
      var mid := Run(st, LineOf(cells));
      RunConcat(st, LineOf(cells), ending + rest);
      EndingReads(mid, ending, rest);
      FileReads(EndRow(mid), lines[1..], last);
      assert st.rows + [Meanings(cells)] + RowsOf(lines[1..], last)
          == st.rows + ([Meanings(cells)] + RowsOf(lines[1..], last));
    }
  }

  // ---------- the records ----------

  ghost predicate HoldsText(row: seq<string>) {
    exists i :: 0 <= i < |row| && row[i] != ""
  }

  /** The positions of the rows that hold something, in order. */
  ghost predicate FilledPlaces(rows: seq<seq<string>>, places: seq<nat>) {
    && (forall k :: 0 <= k < |places| ==> places[k] < |rows| && HoldsText(rows[places[k]]))
    && (forall r :: 0 <= r < |rows| && HoldsText(rows[r]) ==> r in places)
    && forall j, k :: 0 <= j < k < |places| ==> places[j] < places[k]
  }

  /** The record has the columns of the headers. */
  ghost predicate ColumnsAs(headers: seq<string>, record: Record) {
    forall h :: h in record <==> exists i :: 0 <= i < |headers| && Trim(headers[i]) == h
  }

  /** No later header has the name of this one. */
  ghost predicate LastOfName(headers: seq<string>, i: nat)
    requires i < |headers|
  {
    forall j :: i < j < |headers| ==> Trim(headers[j]) != Trim(headers[i])
  }

  ghost predicate CellIs(headers: seq<string>, cells: seq<string>, record: Record, i: nat)
    requires i < |headers|
  {
    Trim(headers[i]) in record && record[Trim(headers[i])] == if i < |cells| then cells[i] else ""
  }

  /** Each column holds the cell of the last header of its name; a row that is too short has empty ones. */
  ghost predicate CellsAs(headers: seq<string>, cells: seq<string>, record: Record) {
    forall i :: 0 <= i < |headers| && LastOfName(headers, i) ==> CellIs(headers, cells, record, i)
  }

  ghost predicate RecordAs(headers: seq<string>, cells: seq<string>, record: Record) {
    ColumnsAs(headers, record) && CellsAs(headers, cells, record)
  }

  lemma {:induction false} RecordMeans(headers: seq<string>, cells: seq<string>, n: nat)
    requires n <= |headers|
    ensures RecordAs(headers[..n], cells, ToRecord(headers, cells, n))
  {
    hide Trim, ColumnsAs, CellsAs;
    if n == 0 {
      NothingRecorded(cells);
    } else {
      RecordMeans(headers, cells, n - 1);
      assert headers[..n - 1] == headers[..n][..n - 1];
      ColumnsNext(headers[..n], cells, ToRecord(headers, cells, n - 1));
      CellsNext(headers[..n], cells, ToRecord(headers, cells, n - 1));
    }
  }

  lemma NothingRecorded(cells: seq<string>)
    ensures RecordAs([], cells, map[])
  {
  }

  lemma ColumnsNext(headers: seq<string>, cells: seq<string>, record: Record)
    requires headers != [] && ColumnsAs(headers[..|headers| - 1], record)
    ensures ColumnsAs(headers, record[Trim(headers[|headers| - 1]) := CellAt(cells, |headers| - 1)])
  {
    hide Trim, CellAt;
    var last, init := |headers| - 1, headers[..|headers| - 1];
    var next := record[Trim(headers[last]) := CellAt(cells, last)];
    forall h ensures h in next <==> exists i :: 0 <= i < |headers| && Trim(headers[i]) == h {
      if i :| 0 <= i < |init| && Trim(init[i]) == h {
        assert Trim(headers[i]) == h;
      }
      if i :| 0 <= i < last && Trim(headers[i]) == h {
        assert Trim(init[i]) == h;
      }
    }
  }

  lemma CellsNext(headers: seq<string>, cells: seq<string>, record: Record)
    requires headers != [] && CellsAs(headers[..|headers| - 1], cells, record)
    ensures CellsAs(headers, cells, record[Trim(headers[|headers| - 1]) := CellAt(cells, |headers| - 1)])
  {
    hide Trim, LastOfName, CellIs;
    var last, init := |headers| - 1, headers[..|headers| - 1];
    var next := record[Trim(headers[last]) := CellAt(cells, last)];
    forall i | 0 <= i < |headers| && LastOfName(headers, i) ensures CellIs(headers, cells, next, i) {
      if i < last {
        EarlierName(headers, i);
        EarlierCell(headers, cells, record, i);
      } else {
        OwnCell(headers, cells, record);
      }
    }
  }

  lemma EarlierName(headers: seq<string>, i: nat)
    requires i < |headers| - 1 && LastOfName(headers, i)
    ensures LastOfName(headers[..|headers| - 1], i)
  {
    hide Trim;
  }

  lemma EarlierCell(headers: seq<string>, cells: seq<string>, record: Record, i: nat)
    requires i < |headers| - 1 && LastOfName(headers, i) && CellIs(headers[..|headers| - 1], cells, record, i)
    ensures CellIs(headers, cells, record[Trim(headers[|headers| - 1]) := CellAt(cells, |headers| - 1)], i)
  {
    hide Trim, CellAt;
  }

  lemma OwnCell(headers: seq<string>, cells: seq<string>, record: Record)
    requires headers != []
    ensures CellIs(headers, cells, record[Trim(headers[|headers| - 1]) := CellAt(cells, |headers| - 1)], |headers| - 1)
  {
    hide Trim;
  }

  /** The rows at these positions. */
  ghost predicate PickedFrom(rows: seq<seq<string>>, places: seq<nat>, kept: seq<seq<string>>) {
    |kept| == |places| && forall k :: 0 <= k < |places| ==> places[k] < |rows| && kept[k] == rows[places[k]]
  }

  lemma {:induction false} KeptPlaces(rows: seq<seq<string>>) returns (places: seq<nat>)
    ensures FilledPlaces(rows, places) && PickedFrom(rows, places, Keep(rows))
  {
    hide FilledPlaces, PickedFrom, HoldsText, Keep;
    if rows == [] {
      places := [];
      NothingKept();
    } else {
      var init, row := rows[..|rows| - 1], rows[|rows| - 1];
      assert rows == init + [row];
      var before := KeptPlaces(init);
      KeepNext(init, row);
      PlacesNext(init, row, before);
      PickedNext(init, row, before, Keep(init));
      places := if HoldsText(row) then before + [|init|] else before;
    }
  }

  lemma NothingKept()
    ensures FilledPlaces([], []) && PickedFrom([], [], Keep([]))
  {
  }

  lemma KeepNext(rows: seq<seq<string>>, row: seq<string>)
    ensures Keep(rows + [row]) == if HoldsText(row) then Keep(rows) + [row] else Keep(rows)
  {
    KeepConcat(rows, [row]);
    FilledHolds(row);
    assert Keep([row]) == if Filled(row) then [row] else [];
  }

  lemma PickedNext(rows: seq<seq<string>>, row: seq<string>, places: seq<nat>, kept: seq<seq<string>>)
    requires PickedFrom(rows, places, kept)
    ensures PickedFrom(rows + [row], if HoldsText(row) then places + [|rows|] else places,
                       if HoldsText(row) then kept + [row] else kept)
  {
    hide HoldsText;
  }

  lemma FilledHolds(row: seq<string>)
    ensures Filled(row) <==> HoldsText(row)
  {
  }

  lemma PlacesNext(rows: seq<seq<string>>, row: seq<string>, places: seq<nat>)
    requires FilledPlaces(rows, places)
    ensures FilledPlaces(rows + [row], if HoldsText(row) then places + [|rows|] else places)
  {
    hide HoldsText;
    var all, next := rows + [row], if HoldsText(row) then places + [|rows|] else places;
    assert forall r :: 0 <= r < |rows| ==> all[r] == rows[r];
    assert all[|rows|] == row;
    forall r | 0 <= r < |all| && HoldsText(all[r]) ensures r in next {
      if r < |rows| {
        assert r in places;
      } else {
        assert next[|places|] == r;
      }
    }
  }

  lemma {:induction false} RecordsAt(headers: seq<string>, rows: seq<seq<string>>, k: nat)
    requires k < |rows|
    ensures |ToRecords(headers, rows)| == |rows|
    ensures ToRecords(headers, rows)[k] == ToRecord(headers, rows[k], |headers|)
  {
    RecordsLength(headers, rows);
    RecordsLength(headers, rows[1..]);
    if k > 0 {
      RecordsAt(headers, rows[1..], k - 1);
    }
  }

  lemma {:induction false} RecordsLength(headers: seq<string>, rows: seq<seq<string>>)
    ensures |ToRecords(headers, rows)| == |rows|
  {
    if rows != [] {
      RecordsLength(headers, rows[1..]);
    }
  }

  /** The first row names the columns of the others. */
  ghost predicate RecordsOf(kept: seq<seq<string>>, records: seq<Record>) {
    if kept == [] then records == []
    else |records| == |kept| - 1 && forall k :: 0 <= k < |records| ==> RecordAs(kept[0], kept[k + 1], records[k])
  }

  /** The records of a table of cells are those of its rows that hold something. */
  ghost predicate RecordsAs(rows: seq<seq<string>>, records: seq<Record>) {
    exists places, kept :: FilledPlaces(rows, places) && PickedFrom(rows, places, kept) && RecordsOf(kept, records)
  }

  /** White space around a file, and a byte order mark before it, are not read. */
  lemma TrimmedIsSame(input: string)
    ensures Parse(input) == Parse(Trim(input))
  {
    hide Run, FilledRows, ToRecords;
    var text := Trim(input);
    var _, _ := TrimSplit(input);
    TrimIdentity(text);
    if input != "" && input[0] == '\U{FEFF}' {
      TrimStartPad(input[..1], input[1..]);
      assert input == input[..1] + input[1..];
    }
    assert WithoutBom(text) == text;
  }

  lemma TableRecords(kept: seq<seq<string>>)
    requires kept != []
    ensures RecordsOf(kept, ToRecords(kept[0], kept[1..]))
  {
    hide RecordAs, ToRecord;
    var headers, rows := kept[0], kept[1..];
    RecordsLength(headers, rows);
    forall k | 0 <= k < |rows| ensures RecordAs(headers, rows[k], ToRecords(headers, rows)[k]) {
      RecordsAt(headers, rows, k);
      RecordMeans(headers, rows[k], |headers|);
      assert headers[..|headers|] == headers;
    }
  }

  /** The records made of rows of which some hold nothing. */
  lemma KeptRecords(rows: seq<seq<string>>)
    ensures var kept := Keep(rows);
            RecordsAs(rows, if kept == [] then [] else ToRecords(kept[0], kept[1..]))
  {
    var places := KeptPlaces(rows);
    var kept := Keep(rows);
    if kept != [] {
      TableRecords(kept);
    }
    assert kept == [] ==> RecordsOf(kept, []);
    hide FilledPlaces, PickedFrom, RecordsOf, ToRecords, Keep;
  }

  lemma ParsedRows(text: string)
    requires Trimmed(text)
    ensures var kept := FilledRows(Run(START, text));
            Parse(text) == if kept == [] then [] else ToRecords(kept[0], kept[1..])
  {
    hide Run, ToRecords, FilledRows;
    TrimIdentity(text);
    assert WithoutBom(text) == text;
    RunNothing();
  }

  /**
   Any well written file is read as it is meant, each cell trimmed: one record for each row but the first that holds
   something.
   */
  lemma ParseMeans(lines: seq<Ended>, last: seq<Written>)
    requires WellWritten(lines, last) && Trimmed(FileText(lines, last))
    ensures RecordsAs(RowsOf(lines, last), Parse(FileText(lines, last)))
  {
    hide Run, FileText, RowsOf, WellWritten, RecordsAs, ToRecords, Keep, Parse, Trimmed;
    FileReads(START, lines, last);
    ParsedRows(FileText(lines, last));
    assert [] + RowsOf(lines, last) == RowsOf(lines, last);
    KeptRecords(RowsOf(lines, last));
  }

  lemma RunNothing()
    ensures FilledRows(Run(START, "")) == []
  {
  }
}
