/**
 What an export of apps/api/src/import-export/import-export.service.ts holds, and what is read of a printed table,
 said of the tables alone.
 */
module ExportLaws {
  import opened Csv
  import opened Export
  import opened ImportExport
  import opened Options
  import opened Text
  import opened Uniqueness

  // ---------- what is exported ----------

  ghost function Columns(resource: Resource): seq<string> {
    match resource
    case Partners => ["code", "name", "isActive"]
    case Units => ["code", "name", "city", "state", "partnerCode", "isActive"]
    case Equipments => ["tag", "name", "type", "serialNumber", "status", "unitCode", "isActive"]
    case Starlinks => ["tag", "name", "serialNumber", "status", "unitCode", "isActive"]
  }

  /** The word stands somewhere in the text, in any case. */
  ghost predicate Mentions(text: string, word: string) {
    exists before, after :: Lower(text) == before + word + after
  }

  ghost predicate IsExported(resource: Resource, db: Db, key: string) {
    match resource
    case Partners => key in db.partners
    case Units => key in db.units
    case Equipments => key in db.equipments
    case Starlinks => key in db.equipments && Mentions(db.equipments[key].kind, "starlink")
  }

  ghost predicate ShowsText(row: Row, column: string, text: string) {
    column in row && row[column] == Text(text)
  }

  ghost predicate ShowsOption(row: Row, column: string, text: Option<string>) {
    column in row && row[column] == if text.Some? then Text(text.value) else Absent
  }

  ghost predicate ShowsFlag(row: Row, on: bool) {
    "isActive" in row && row["isActive"] == Flag(on)
  }

  /** The printed row holds the fields of the table's row, each in the column of its name. */
  ghost predicate PrintedOf(resource: Resource, db: Db, key: string, row: Row) {
    && IsExported(resource, db, key)
    && match resource
       case Partners =>
         var p := db.partners[key];
         ShowsText(row, "code", key) && ShowsText(row, "name", p.name) && ShowsFlag(row, p.isActive)
       case Units =>
         var u := db.units[key];
         && ShowsText(row, "code", key) && ShowsText(row, "name", u.name) && ShowsOption(row, "city", u.city)
         && ShowsOption(row, "state", u.state) && ShowsText(row, "partnerCode", u.partnerCode)
         && ShowsFlag(row, u.isActive)
       case _ =>
         var e := db.equipments[key];
         && ShowsText(row, "tag", key) && ShowsText(row, "name", e.name)
         && (resource.Equipments? ==> ShowsText(row, "type", e.kind))
         && ShowsOption(row, "serialNumber", e.serialNumber) && ShowsText(row, "status", e.status)
         && ShowsText(row, "unitCode", e.unitCode) && ShowsFlag(row, e.isActive)
  }

  lemma {:induction false} ContainsMeans(s: string, word: string)
    ensures Contains(s, word) <==> exists before, after :: s == before + word + after
  {
    if word <= s {
      assert s == "" + word + s[|word|..];
    } else if s != "" {
      ContainsMeans(s[1..], word);
      if before, after :| s[1..] == before + word + after {
        assert s == [s[0]] + before + word + after;
      }
      if before, after :| s == before + word + after {
        assert before != "" by {
          assert before == "" ==> s == word + after;
        }
        assert s[1..] == before[1..] + word + after;
      }
    } else {
      assert |word| > 0;
      forall before, after: string ensures |before + word + after| > 0 {
      }
    }
  }

  lemma SelectedMeans(resource: Resource, db: Db, key: string)
    ensures key in Selected(resource, db) <==> IsExported(resource, db, key)
  {
    if resource.Starlinks? && key in db.equipments {
      ContainsMeans(Lower(db.equipments[key].kind), "starlink");
    }
  }

  lemma {:induction false} PairHolds(headers: seq<string>, cells: seq<Cell>, i: nat)
    requires |headers| == |cells| && i < |headers| && Distinct(headers)
    ensures headers[i] in Pair(headers, cells) && Pair(headers, cells)[headers[i]] == cells[i]
  {
    if i > 0 {
      PairHolds(headers[1..], cells[1..], i - 1);
    }
  }

  lemma RowPrinted(resource: Resource, db: Db, key: string)
    requires key in Selected(resource, db)
    ensures PrintedOf(resource, db, key, ExportRow(resource, db, key))
  {
    SelectedMeans(resource, db, key);
    TemplateDistinct(resource);
    var headers, cells := Template(resource), ExportCells(resource, db, key);
    forall i | 0 <= i < |headers|
      ensures headers[i] in Pair(headers, cells) && Pair(headers, cells)[headers[i]] == cells[i]
    {
      PairHolds(headers, cells, i);
    }
    hide Selected, IsExported, Distinct, Pair;
    match resource
    case Partners => assert headers[0] == "code" && headers[1] == "name" && headers[2] == "isActive";
    case Units =>
      assert headers[0] == "code" && headers[1] == "name" && headers[2] == "city" && headers[3] == "state";
      assert headers[4] == "partnerCode" && headers[5] == "isActive";
    case Equipments =>
      assert headers[0] == "tag" && headers[1] == "name" && headers[2] == "type" && headers[3] == "serialNumber";
      assert headers[4] == "status" && headers[5] == "unitCode" && headers[6] == "isActive";
    case Starlinks =>
      assert headers[0] == "tag" && headers[1] == "name" && headers[2] == "serialNumber" && headers[3] == "status";
      assert headers[4] == "unitCode" && headers[5] == "isActive";
  }

  lemma {:induction false} RowsPrinted(resource: Resource, db: Db, order: seq<string>)
    requires forall key :: key in order ==> key in Selected(resource, db)
    ensures |ExportRows(resource, db, order)| == |order|
    ensures forall i :: 0 <= i < |order| ==> PrintedOf(resource, db, order[i], ExportRows(resource, db, order)[i])
  {
    if order != [] {
      hide Selected, PrintedOf, ExportRow;
      RowsPrinted(resource, db, order[1..]);
      RowPrinted(resource, db, order[0]);
      assert order == [order[0]] + order[1..];
    }
  }

  /** An export is the table of its columns with one row for each row it selects, and it selects exactly these. */
  lemma ExportMeans(resource: Resource, db: Db, order: seq<string>)
    requires Lists(order, Selected(resource, db))
    ensures forall key :: key in order <==> IsExported(resource, db, key)
    ensures exists rows :: ExportCsv(resource, db, order) == ToCsv(rows, Columns(resource)) && |rows| == |order|
                           && forall i :: 0 <= i < |order| ==> PrintedOf(resource, db, order[i], rows[i])
  {
    hide Selected, PrintedOf, IsExported;
    forall key ensures key in Selected(resource, db) <==> IsExported(resource, db, key) {
      SelectedMeans(resource, db, key);
    }
    RowsPrinted(resource, db, order);
    TemplateIs(resource);
  }

  lemma TemplateIs(resource: Resource)
    ensures Template(resource) == Columns(resource)
  {
  }

  // ---------- what is read of a printed table ----------

  ghost predicate IsRaw(row: Row, header: string, raw: string) {
    if header !in row then raw == "" else
      match row[header]
      case Absent => raw == ""
      case Text(text) => raw == text
      case Flag(on) => raw == if on then "true" else "false"
  }

  /** A text that would start a formula is read back with an apostrophe before it; all others as they are, trimmed. */
  ghost predicate ReadAs(row: Row, header: string, text: string) {
    exists raw :: IsRaw(row, header, raw)
                  && text == Trim(if raw != "" && raw[0] in {'=', '+', '-', '@'} then "'" + raw else raw)
  }

  /** The row shows something in some column. */
  ghost predicate ShowsSomething(row: Row, headers: seq<string>) {
    exists h, text :: h in headers && ReadAs(row, h, text) && text != ""
  }

  ghost predicate ShownPlaces(rows: seq<Row>, headers: seq<string>, places: seq<nat>) {
    && (forall k :: 0 <= k < |places| ==> places[k] < |rows| && ShowsSomething(rows[places[k]], headers))
    && (forall r :: 0 <= r < |rows| && ShowsSomething(rows[r], headers) ==> r in places)
    && forall j, k :: 0 <= j < k < |places| ==> places[j] < places[k]
  }

  ghost predicate RecordOf(row: Row, headers: seq<string>, record: Record) {
    && (forall h :: h in record <==> h in headers)
    && forall h :: h in headers ==> h in record && ReadAs(row, h, record[h])
  }

  lemma ShownReads(row: Row, header: string)
    ensures ReadAs(row, header, Trim(Shown(row, header)))
    ensures forall text :: ReadAs(row, header, text) ==> text == Trim(Shown(row, header))
  {
    hide Trim;
    assert IsRaw(row, header, Raw(CellOf(row, header)));
  }

  lemma RowRecord(row: Row, headers: seq<string>)
    ensures RecordOf(row, headers, ReadRecord(row, headers))
    ensures Survives(row, headers) <==> ShowsSomething(row, headers)
  {
    hide Trim, Shown, ReadAs;
    forall h ensures ReadAs(row, h, Trim(Shown(row, h))) {
      ShownReads(row, h);
    }
    forall h, text | ReadAs(row, h, text) ensures text == Trim(Shown(row, h)) {
      ShownReads(row, h);
    }
    if h :| h in headers && Trim(Shown(row, h)) != "" {
      assert ReadAs(row, h, Trim(Shown(row, h)));
    }
  }

  ghost predicate RecordsAt(rows: seq<Row>, headers: seq<string>, places: seq<nat>, records: seq<Record>) {
    && |records| == |places|
    && forall k :: 0 <= k < |places| ==> places[k] < |rows| && RecordOf(rows[places[k]], headers, records[k])
  }

  lemma {:induction false} ReadPlaces(rows: seq<Row>, headers: seq<string>) returns (places: seq<nat>)
    ensures ShownPlaces(rows, headers, places) && RecordsAt(rows, headers, places, ReadRecords(rows, headers))
  {
    hide ReadRecord, Survives, ShownPlaces, RecordsAt, ShowsSomething;
    if rows == [] {
      places := [];
      NothingShown(headers);
    } else {
      var init, row := rows[..|rows| - 1], rows[|rows| - 1];
      assert rows == init + [row];
      var before := ReadPlaces(init, headers);
      RowRecord(row, headers);
      ReadLast(init, row, headers);
      assert ReadRecords(init, headers) + [] == ReadRecords(init, headers);
      ShownNext(init, row, headers, before);
      RecordsNext(init, row, headers, before, ReadRecords(init, headers));
      places := if ShowsSomething(row, headers) then before + [|init|] else before;
    }
  }

  lemma NothingShown(headers: seq<string>)
    ensures ShownPlaces([], headers, []) && RecordsAt([], headers, [], ReadRecords([], headers))
  {
  }

  lemma {:induction false} ReadLast(rows: seq<Row>, row: Row, headers: seq<string>)
    ensures ReadRecords(rows + [row], headers)
         == ReadRecords(rows, headers) + if Survives(row, headers) then [ReadRecord(row, headers)] else []
  {
    hide ReadRecord, Survives;
    if rows == [] {
      assert [] + [row] == [row] && [row][1..] == [];
    } else {
      assert (rows + [row])[1..] == rows[1..] + [row];
      ReadLast(rows[1..], row, headers);
    }
  }

  lemma ShownNext(rows: seq<Row>, row: Row, headers: seq<string>, places: seq<nat>)
    requires ShownPlaces(rows, headers, places)
    ensures ShownPlaces(rows + [row], headers, if ShowsSomething(row, headers) then places + [|rows|] else places)
  {
    hide ShowsSomething;
    var all, next := rows + [row], if ShowsSomething(row, headers) then places + [|rows|] else places;
    assert forall r :: 0 <= r < |rows| ==> all[r] == rows[r];
    forall r | 0 <= r < |all| && ShowsSomething(all[r], headers) ensures r in next {
      if r < |rows| {
        assert r in places;
      } else {
        assert next[|places|] == r;
      }
    }
  }

  lemma RecordsNext(rows: seq<Row>, row: Row, headers: seq<string>, places: seq<nat>, records: seq<Record>)
    requires RecordsAt(rows, headers, places, records) && RecordOf(row, headers, ReadRecord(row, headers))
    ensures RecordsAt(rows + [row], headers, places, records)
    ensures RecordsAt(rows + [row], headers, places + [|rows|], records + [ReadRecord(row, headers)])
  {
    hide RecordOf, ReadRecord;
  }

  /** Of a printed table the rows that show something are read back, in order, and no others. */
  lemma PrintMeans(rows: seq<Row>, headers: seq<string>) returns (places: seq<nat>)
    requires PlainHeaders(headers)
    ensures ShownPlaces(rows, headers, places) && RecordsAt(rows, headers, places, Parse(ToCsv(rows, headers)))
  {
    hide ShownPlaces, RecordsAt, ReadRecords, Parse, PlainHeaders;
    RoundTrip(rows, headers);
    places := ReadPlaces(rows, headers);
  }
}
