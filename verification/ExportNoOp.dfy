/**
 Exactly when importing an export of apps/api/src/import-export/import-export.service.ts changes nothing.

 Keys are read back trimmed, guarded and in capitals, so two rows of a table may be read back under one
 key; what counts then is the row listed last.
 */
module ExportNoOp {
  import opened Csv
  import opened Options
  import opened Text
  import opened ImportExport
  import opened Uniqueness
  import opened Export

  // ---------- when a bulk write changes nothing ----------

  /** The table holds exactly this row. */
  predicate Stored(db: Db, entry: Entry) {
    match entry
    case PartnerEntry(code, p) => code in db.partners && db.partners[code] == p
    case UnitEntry(code, u) => code in db.units && db.units[code] == u
    case EquipmentEntry(tag, e) => tag in db.equipments && db.equipments[tag] == e
  }

  predicate SameKey(a: Entry, b: Entry) {
    match a
    case PartnerEntry(code, _) => b.PartnerEntry? && b.code == code
    case UnitEntry(code, _) => b.UnitEntry? && b.code == code
    case EquipmentEntry(tag, _) => b.EquipmentEntry? && b.tag == tag
  }

  /** A later entry has the same key. */
  ghost predicate Overwritten(entries: seq<Entry>, i: nat)
    requires i < |entries|
  {
    exists j :: i < j < |entries| && SameKey(entries[i], entries[j])
  }

  lemma {:induction false} StoredStays(db: Db, entries: seq<Entry>, entry: Entry)
    requires forall j :: 0 <= j < |entries| ==> !SameKey(entry, entries[j])
    ensures Stored(PutAll(db, entries), entry) <==> Stored(db, entry)
    decreases |entries|
  {
    if entries != [] {
      StoredStays(Put(db, entries[0]), entries[1..], entry);
      PutElsewhere(db, entries[0], entry);
    }
  }

  lemma PutElsewhere(db: Db, put: Entry, entry: Entry)
    requires !SameKey(entry, put)
    ensures Stored(Put(db, put), entry) <==> Stored(db, entry)
  {
  }

  /** The last entry of its key is what the table holds in the end. */
  lemma {:induction false} LastIsStored(db: Db, entries: seq<Entry>, i: nat)
    requires i < |entries| && !Overwritten(entries, i)
    ensures Stored(PutAll(db, entries), entries[i])
    decreases |entries|
  {
    hide Stored, SameKey, Put;
    var next := Put(db, entries[0]);
    if i == 0 {
      StoredStays(next, entries[1..], entries[0]);
      PutIsStored(db, entries[0]);
    } else {
      TailOverwritten(entries, i);
      LastIsStored(next, entries[1..], i - 1);
    }
  }

  lemma TailOverwritten(entries: seq<Entry>, i: nat)
    requires 0 < i < |entries|
    ensures Overwritten(entries[1..], i - 1) ==> Overwritten(entries, i)
  {
    hide SameKey;
    if Overwritten(entries[1..], i - 1) {
      var j :| i - 1 < j < |entries| - 1 && SameKey(entries[1..][i - 1], entries[1..][j]);
      assert SameKey(entries[i], entries[j + 1]);
    }
  }

  lemma PutIsStored(db: Db, entry: Entry)
    ensures Stored(Put(db, entry), entry)
  {
  }

  /** The last entry of a key that occurs. */
  lemma {:induction false} LastOf(entries: seq<Entry>, entry: Entry, n: nat) returns (i: nat)
    requires n <= |entries| && forall j :: n <= j < |entries| ==> !SameKey(entry, entries[j])
    requires exists j :: 0 <= j < n && SameKey(entry, entries[j])
    ensures i < |entries| && SameKey(entry, entries[i]) && !Overwritten(entries, i)
    decreases n
  {
    if SameKey(entry, entries[n - 1]) {
      i := n - 1;
    } else {
      i := LastOf(entries, entry, n - 1);
    }
  }

  lemma RowsAmong(a: Db, b: Db)
    requires forall entry :: Stored(a, entry) ==> Stored(b, entry)
    ensures forall code :: code in a.partners ==> code in b.partners && b.partners[code] == a.partners[code]
    ensures forall code :: code in a.units ==> code in b.units && b.units[code] == a.units[code]
    ensures forall tag :: tag in a.equipments ==> tag in b.equipments && b.equipments[tag] == a.equipments[tag]
  {
    forall code | code in a.partners ensures code in b.partners && b.partners[code] == a.partners[code] {
      assert Stored(a, PartnerEntry(code, a.partners[code]));
    }
    forall code | code in a.units ensures code in b.units && b.units[code] == a.units[code] {
      assert Stored(a, UnitEntry(code, a.units[code]));
    }
    forall tag | tag in a.equipments ensures tag in b.equipments && b.equipments[tag] == a.equipments[tag] {
      assert Stored(a, EquipmentEntry(tag, a.equipments[tag]));
    }
  }

  lemma SameTables(a: Db, b: Db)
    requires forall entry :: Stored(a, entry) <==> Stored(b, entry)
    ensures a == b
  {
    RowsAmong(a, b);
    RowsAmong(b, a);
    assert a.partners == b.partners && a.units == b.units && a.equipments == b.equipments;
  }

  lemma OneRowPerKey(db: Db, a: Entry, b: Entry)
    requires SameKey(a, b) && Stored(db, b)
    ensures Stored(db, a) <==> a == b
  {
  }

  /** Writing entries in order changes nothing exactly when the last entry of every key is already there. */
  lemma PutAllNoOpIff(db: Db, entries: seq<Entry>)
    ensures PutAll(db, entries) == db
            <==> forall i :: 0 <= i < |entries| ==> Overwritten(entries, i) || Stored(db, entries[i])
  {
    hide Stored, SameKey, Overwritten;
    var after := PutAll(db, entries);
    if after == db {
      forall i | 0 <= i < |entries| && !Overwritten(entries, i) ensures Stored(db, entries[i]) {
        LastIsStored(db, entries, i);
      }
    }
    if forall i :: 0 <= i < |entries| ==> Overwritten(entries, i) || Stored(db, entries[i]) {
      forall entry ensures Stored(after, entry) <==> Stored(db, entry) {
        if exists j :: 0 <= j < |entries| && SameKey(entry, entries[j]) {
          var i := LastOf(entries, entry, |entries|);
          LastIsStored(db, entries, i);
          OneRowPerKey(db, entry, entries[i]);
          OneRowPerKey(after, entry, entries[i]);
        } else {
          StoredStays(db, entries, entry);
        }
      }
      SameTables(after, db);
    }
  }

  /** A write that changes nothing creates nothing. */
  lemma {:induction false} NothingIsNew(db: Db, entries: seq<Entry>)
    requires PutAll(db, entries) == db
    ensures NewCount(db, entries) == 0
  {
    forall e | e in entries ensures Has(db, e) {
      PutAllHas(db, entries, e);
    }
    NoneNew(db, entries);
  }

  // ---------- the rows of an exported file ----------

  /** The row an import of the exported row asks for. */
  function Asked(resource: Resource, db: Db, key: string): Planned
    requires key in Selected(resource, db)
  {
    Plan(resource, ReadBack(resource, db, key), db)
  }

  predicate Shows(resource: Resource, db: Db, key: string)
    requires key in Selected(resource, db)
  {
    Survives(ExportRow(resource, db, key), Template(resource))
  }

  /** The row comes back at all, and as a row the import accepts. */
  predicate Accepted(resource: Resource, db: Db, key: string)
    requires key in Selected(resource, db)
  {
    Shows(resource, db, key) && Asked(resource, db, key).Write?
  }

  lemma {:induction false} ReadsOneByOne(resource: Resource, db: Db, order: seq<string>)
    requires forall key :: key in order ==> key in Selected(resource, db)
    ensures var records := ReadRecords(ExportRows(resource, db, order), Template(resource));
            && |records| <= |order|
            && (|records| == |order| <==> forall i :: 0 <= i < |order| ==> Shows(resource, db, order[i]))
            && (|records| == |order| ==>
                  forall i :: 0 <= i < |order| ==> records[i] == ReadBack(resource, db, order[i]))
  {
    hide Template, ExportRow, ReadRecord, Survives, Selected;
    if order != [] {
      ReadsOneByOne(resource, db, order[1..]);
      var rest := ReadRecords(ExportRows(resource, db, order[1..]), Template(resource));
      assert forall i :: 0 < i < |order| ==> order[i] == order[1..][i - 1];
      assert forall i :: 0 <= i < |order| - 1 ==> order[1..][i] == order[i + 1];
      if Shows(resource, db, order[0]) {
        assert forall i :: 0 <= i < |rest| ==> ([ReadBack(resource, db, order[0])] + rest)[i + 1] == rest[i];
      }
    }
  }

  lemma {:induction false} PlansOneByOne(resource: Resource, rows: seq<Record>, db: Db)
    ensures |PlanAll(resource, rows, db)| == |rows|
    ensures forall i :: 0 <= i < |rows| ==> PlanAll(resource, rows, db)[i] == Plan(resource, rows[i], db)
  {
    hide Plan;
    if rows != [] {
      PlansOneByOne(resource, rows[1..], db);
    }
  }

  lemma {:induction false} WrittenOneByOne(plans: seq<Planned>)
    ensures |Written(plans)| == |plans| <==> forall i :: 0 <= i < |plans| ==> plans[i].Write?
    ensures |Written(plans)| == |plans| ==> forall i :: 0 <= i < |plans| ==> Write(Written(plans)[i]) == plans[i]
  {
    if plans != [] && plans[0].Write? {
      WrittenOneByOne(plans[1..]);
      assert forall i :: 0 < i < |plans| ==> plans[i] == plans[1..][i - 1];
    }
  }

  /** Every exported row is accepted, and the one listed last under its key is asked for as it is stored. */
  ghost predicate Harmless(resource: Resource, db: Db, order: seq<string>)
    requires forall key :: key in order ==> key in Selected(resource, db)
  {
    && (forall i :: 0 <= i < |order| ==> Accepted(resource, db, order[i]))
    && forall i :: 0 <= i < |order| ==> ListedAgain(resource, db, order, i) || StoredAsAsked(resource, db, order[i])
  }

  predicate StoredAsAsked(resource: Resource, db: Db, key: string)
    requires key in Selected(resource, db)
  {
    Asked(resource, db, key).Write? && Stored(db, Asked(resource, db, key).entry)
  }

  /** A row listed later is read back under the same key. */
  ghost predicate ListedAgain(resource: Resource, db: Db, order: seq<string>, i: nat)
    requires (forall key :: key in order ==> key in Selected(resource, db)) && i < |order|
  {
    exists j :: i < j < |order| && AskSame(resource, db, order[i], order[j])
  }

  predicate AskSame(resource: Resource, db: Db, a: string, b: string)
    requires a in Selected(resource, db) && b in Selected(resource, db)
  {
    var x, y := Asked(resource, db, a), Asked(resource, db, b);
    x.Write? && y.Write? && SameKey(x.entry, y.entry)
  }

  /** The entries of an export whose rows are all accepted. */
  ghost predicate EntriesAsked(resource: Resource, db: Db, order: seq<string>, entries: seq<Entry>)
    requires forall key :: key in order ==> key in Selected(resource, db)
  {
    |entries| == |order| && forall i :: 0 <= i < |order| ==> Asked(resource, db, order[i]) == Write(entries[i])
  }

  lemma HarmlessIs(resource: Resource, db: Db, order: seq<string>, entries: seq<Entry>)
    requires forall key :: key in order ==> key in Selected(resource, db)
    requires EntriesAsked(resource, db, order, entries)
    requires forall i :: 0 <= i < |order| ==> Shows(resource, db, order[i])
    ensures Harmless(resource, db, order)
            <==> forall i :: 0 <= i < |entries| ==> Overwritten(entries, i) || Stored(db, entries[i])
  {
    hide Asked, Shows, SameKey, Stored, Selected;
    forall i | 0 <= i < |order|
      ensures ListedAgain(resource, db, order, i) <==> Overwritten(entries, i)
      ensures StoredAsAsked(resource, db, order[i]) <==> Stored(db, entries[i])
    {
      if ListedAgain(resource, db, order, i) {
        var j :| i < j < |order| && AskSame(resource, db, order[i], order[j]);
        assert SameKey(entries[i], entries[j]);
      }
      if Overwritten(entries, i) {
        var j :| i < j < |entries| && SameKey(entries[i], entries[j]);
        assert AskSame(resource, db, order[i], order[j]);
      }
    }
  }

  /**
   Importing an export changes nothing, and says so, if and only if every exported row is accepted and the
   row listed last under each key is asked for exactly as it is stored.  It holds for all four files.
   */
  lemma ExportImportIsNoOpIff(input: string, resource: Resource, db: Db, order: seq<string>)
    requires NormalizeResource(input) == Some(resource) && Lists(order, Selected(resource, db))
    ensures Execute(input, ExportCsv(resource, db, order), db) == (db, Done(|order|, 0, |order|))
            <==> Harmless(resource, db, order)
  {
    hide Template, NormalizeResource, Selected, ToCsv, Parse, Plan, PutAll, PlanAll, Written, NewCount, ReadRecords,
         Import, Replay, ExportRows, Asked, Shows, Harmless, Stored, Overwritten;
    var rows := ExportRows(resource, db, order);
    var records := ReadRecords(rows, Template(resource));
    var plans := PlanAll(resource, records, db);
    var entries := Written(plans);
    TemplatePlain(resource);
    RoundTrip(rows, Template(resource));
    ImportIsReplay(resource, records, 2, db, 0, 0);
    ReplayIsPutAll(plans, 2, db, 0, 0);
    ReadsOneByOne(resource, db, order);
    PlansOneByOne(resource, records, db);
    WrittenOneByOne(plans);
    AcceptedOrNot(resource, db, order, records, plans);
    PutAllNoOpIff(db, entries);
    if |entries| == |order| {
      HarmlessIs(resource, db, order, entries);
      if PutAll(db, entries) == db {
        NothingIsNew(db, entries);
      }
    }
  }

  lemma AcceptedOrNot(resource: Resource, db: Db, order: seq<string>, records: seq<Record>, plans: seq<Planned>)
    requires forall key :: key in order ==> key in Selected(resource, db)
    requires |plans| == |records| <= |order|
    requires |records| == |order| <==> forall i :: 0 <= i < |order| ==> Shows(resource, db, order[i])
    requires |records| == |order| ==> forall i :: 0 <= i < |order| ==> records[i] == ReadBack(resource, db, order[i])
    requires forall i :: 0 <= i < |records| ==> plans[i] == Plan(resource, records[i], db)
    ensures (|plans| == |order| && forall i :: 0 <= i < |plans| ==> plans[i].Write?)
            <==> forall i :: 0 <= i < |order| ==> Accepted(resource, db, order[i])
    ensures |plans| == |order| ==> forall i :: 0 <= i < |order| ==> Asked(resource, db, order[i]) == plans[i]
    ensures Harmless(resource, db, order) ==> forall i :: 0 <= i < |order| ==> Accepted(resource, db, order[i])
  {
    hide Plan, Shows, ReadBack, Selected;
    if forall i :: 0 <= i < |order| ==> Accepted(resource, db, order[i]) {
      assert forall i :: 0 <= i < |order| ==> Shows(resource, db, order[i]);
    }
    if |plans| == |order| && forall i :: 0 <= i < |plans| ==> plans[i].Write? {
      forall i | 0 <= i < |order| ensures Accepted(resource, db, order[i]) {
        assert Asked(resource, db, order[i]) == plans[i];
      }
    }
  }

  // ---------- tables whose keys stay apart ----------

  /** The key a row is read back under. */
  function ReadKey(key: string): string {
    Upper(Trim(Reads(Text(key))))
  }

  function EntryKey(entry: Entry): string {
    match entry
    case PartnerEntry(code, _) => code
    case UnitEntry(code, _) => code
    case EquipmentEntry(tag, _) => tag
  }

  /** No two rows are read back under one key. */
  predicate KeysApart(resource: Resource, db: Db) {
    forall a, b :: a in Selected(resource, db) && b in Selected(resource, db) && ReadKey(a) == ReadKey(b) ==> a == b
  }

  lemma AskedKey(resource: Resource, db: Db, key: string)
    requires key in Selected(resource, db) && Asked(resource, db, key).Write?
    ensures EntryKey(Asked(resource, db, key).entry) == ReadKey(key)
    ensures Belongs(resource, Asked(resource, db, key).entry)
  {
    hide Reads, Trim, Upper, Lower, ReadRecord, Bool, Or, OrNull, Distinct;
    var t, cells := Template(resource), ExportCells(resource, db, key);
    TemplateDistinct(resource);
    FieldReads(t, cells, 0);
  }

  lemma UpperTrimmed(s: string)
    ensures Trimmed(Upper(s)) <==> Trimmed(s)
    ensures Upper(Upper(s)) == Upper(s)
  {
    UpperIdentity(Upper(s));
    assert s != "" ==> IsSpace(UpperChar(s[0])) == IsSpace(s[0])
                       && IsSpace(UpperChar(s[|s| - 1])) == IsSpace(s[|s| - 1]);
  }

  /**
   A key read back is trimmed and in capitals; a second reading only guards a formula, and a third changes
   nothing.
   */
  lemma ReadKeySettles(key: string)
    ensures ReadKey(ReadKey(ReadKey(key))) == ReadKey(ReadKey(key))
  {
    hide Trim, Upper, Trimmed;
    var once := ReadKey(key);
    ReadKeyAgain(key);
    ReadKeyAgain(once);
    ReadKeyAgain(ReadKey(once));
  }

  lemma ReadKeyAgain(key: string)
    ensures ReadKey(ReadKey(key)) == Guard(ReadKey(key)) && Guard(Guard(ReadKey(key))) == Guard(ReadKey(key))
  {
    hide Trim, Upper, Trimmed;
    var once := ReadKey(key);
    ReadsTrimmed(Text(key));
    TrimIdentity(Reads(Text(key)));
    UpperTrimmed(Reads(Text(key)));
    GuardTrimmed(once);
    TrimIdentity(Guard(once));
    GuardUpper(Reads(Text(key)));
  }

  lemma GuardTrimmed(s: string)
    requires Trimmed(s)
    ensures Trimmed(Guard(s)) && !FormulaLead(Guard(s))
  {
  }

  lemma GuardUpper(s: string)
    ensures Upper(Guard(Upper(s))) == Guard(Upper(s))
  {
    UpperIdentity(s);
    UpperIdentity(Guard(Upper(s)));
  }

  /** While keys stay apart, a harmless export reads every key back as it is. */
  lemma KeysStay(resource: Resource, db: Db, order: seq<string>, key: string)
    requires Lists(order, Selected(resource, db)) && KeysApart(resource, db) && Harmless(resource, db, order)
    requires key in Selected(resource, db)
    ensures ReadKey(key) == key && StoredAsAsked(resource, db, key)
  {
    hide Asked, ReadKey, Shows, Stored, Selected;
    ReadKeySettles(key);
    NeverAgain(resource, db, order, key);
    StoredUnder(resource, db, key);
    NeverAgain(resource, db, order, ReadKey(key));
    StoredUnder(resource, db, ReadKey(key));
  }

  lemma NeverAgain(resource: Resource, db: Db, order: seq<string>, key: string)
    requires Lists(order, Selected(resource, db)) && KeysApart(resource, db) && Harmless(resource, db, order)
    requires key in Selected(resource, db)
    ensures StoredAsAsked(resource, db, key)
  {
    hide Asked, ReadKey, Shows, Stored, Selected;
    var i :| 0 <= i < |order| && order[i] == key;
    if ListedAgain(resource, db, order, i) {
      var j :| i < j < |order| && AskSame(resource, db, order[i], order[j]);
      AskedKey(resource, db, order[i]);
      AskedKey(resource, db, order[j]);
      SameKeys(Asked(resource, db, order[i]).entry, Asked(resource, db, order[j]).entry);
      assert false;
    }
  }

  lemma SameKeys(a: Entry, b: Entry)
    requires SameKey(a, b)
    ensures EntryKey(a) == EntryKey(b)
  {
  }

  /** What is stored as asked is a row of the export again. */
  lemma StoredUnder(resource: Resource, db: Db, key: string)
    requires key in Selected(resource, db) && StoredAsAsked(resource, db, key)
    ensures ReadKey(key) in Selected(resource, db)
  {
    hide Asked, ReadKey, Contains, Lower;
    AskedKey(resource, db, key);
    AskedKind(resource, db, key);
    StarlinkWord();
  }

  lemma AskedKind(resource: Resource, db: Db, key: string)
    requires key in Selected(resource, db) && Asked(resource, db, key).Write?
    ensures resource == Starlinks ==> Asked(resource, db, key).entry.EquipmentEntry?
                                      && Asked(resource, db, key).entry.equipment.kind == "starlink"
  {
    hide Reads, Trim, Upper, ReadRecord, ExportRow, Bool, Or, OrNull;
  }

  lemma StarlinkWord()
    ensures Contains(Lower("starlink"), "starlink")
  {
    LowerIdentity("starlink");
  }

  /** The parent an accepted row names is there. */
  lemma AskedParent(resource: Resource, db: Db, key: string)
    requires key in Selected(resource, db) && Asked(resource, db, key).Write?
    ensures resource == Units ==> Asked(resource, db, key).entry.UnitEntry?
                                  && Asked(resource, db, key).entry.unit.partnerCode in db.partners
    ensures resource in {Equipments, Starlinks} ==> Asked(resource, db, key).entry.EquipmentEntry?
                                                    && Asked(resource, db, key).entry.equipment.unitCode in db.units
  {
    hide Reads, Trim, Upper, ReadRecord, ExportRow, Bool, Or, OrNull;
  }

  /** The row is normal, its parent is there, and a Starlink's kind is the bare word. */
  predicate Faithful(resource: Resource, db: Db, key: string)
    requires key in Selected(resource, db)
  {
    && NormalRow(resource, db, key) && ParentIn(resource, db, key, db)
    && (resource == Starlinks ==> db.equipments[key].kind == "starlink")
  }

  lemma StoredUnderItselfIff(resource: Resource, db: Db, key: string)
    requires key in Selected(resource, db)
    ensures StoredAsAsked(resource, db, key) && ReadKey(key) == key <==> Faithful(resource, db, key)
  {
    hide Asked, ReadKey, NormalRow, Contains, Lower;
    if StoredAsAsked(resource, db, key) && ReadKey(key) == key {
      AskedKey(resource, db, key);
      AskedKind(resource, db, key);
      AskedParent(resource, db, key);
      assert Asked(resource, db, key) == Write(EntryOf(resource, db, key));
      AskedIff(resource, db, key);
    }
    if Faithful(resource, db, key) {
      AskedIff(resource, db, key);
      AskedKey(resource, db, key);
      assert resource == Starlinks ==> db.equipments[key].(kind := "starlink") == db.equipments[key];
    }
  }

  lemma AskedIff(resource: Resource, db: Db, key: string)
    requires key in Selected(resource, db) && ParentIn(resource, db, key, db)
    ensures Asked(resource, db, key) == Write(EntryOf(resource, db, key)) <==> NormalRow(resource, db, key)
  {
    hide Plan, ReadBack, NormalRow, Selected, EntryOf, ParentIn;
    ReadBackIff(resource, db, key, db);
  }

  /**
   While no two rows are read back under one key, export then import changes nothing if and only if every
   exported row is normal, has its parent and, for Starlinks, is of the bare kind.
   */
  lemma NoOpIffNormal(input: string, resource: Resource, db: Db, order: seq<string>)
    requires NormalizeResource(input) == Some(resource) && Lists(order, Selected(resource, db))
        && KeysApart(resource, db)
    ensures Execute(input, ExportCsv(resource, db, order), db) == (db, Done(|order|, 0, |order|))
            <==> forall key :: key in order ==> Faithful(resource, db, key)
  {
    hide NormalizeResource, Execute, ExportCsv, Selected, Harmless, Faithful, ReadKey, Shows, StoredAsAsked;
    ExportImportIsNoOpIff(input, resource, db, order);
    if Harmless(resource, db, order) {
      forall key | key in order ensures Faithful(resource, db, key) {
        KeysStay(resource, db, order, key);
        StoredUnderItselfIff(resource, db, key);
      }
    }
    if forall key :: key in order ==> Faithful(resource, db, key) {
      FaithfulIsHarmless(resource, db, order);
    }
  }

  lemma FaithfulIsHarmless(resource: Resource, db: Db, order: seq<string>)
    requires forall key :: key in order ==> key in Selected(resource, db) && Faithful(resource, db, key)
    ensures Harmless(resource, db, order)
  {
    hide Asked, ReadKey, Shows, Stored, Selected, NormalRow;
    forall i | 0 <= i < |order|
      ensures Accepted(resource, db, order[i]) && StoredAsAsked(resource, db, order[i])
    {
      StoredUnderItselfIff(resource, db, order[i]);
      ShowsNormal(resource, db, order[i]);
    }
  }

  lemma ShowsNormal(resource: Resource, db: Db, key: string)
    requires key in Selected(resource, db) && NormalRow(resource, db, key)
    ensures Shows(resource, db, key)
  {
    ExportRowSurvives(resource, db, key);
  }

  function SpacedTables(): Db {
    Db(map["A" := Partner("N", true), " A" := Partner("N", true)], map[], map[])
  }

  lemma SpacedKeys()
    ensures Reads(Text(" A")) == Reads(Text("A")) == "A" && ReadKey(" A") == ReadKey("A") == "A"
    ensures !NormalCode(" A") && NormalText("N")
  {
    assert " A"[1..] == "A";
    assert TrimStart(" A") == "A" && Trim(" A") == "A" && Trim("A") == "A";
    UpperIdentity("A");
  }

  lemma SpacedOrder()
    ensures Lists([" A", "A"], Selected(Partners, SpacedTables()))
  {
    assert " A"[0] != "A"[0];
    assert [" A", "A"][0] == " A" && [" A", "A"][1] == "A";
  }

  /** A partner is asked for under its read key with its own name, if that name is normal. */
  lemma PartnerAsked(db: Db, key: string)
    requires key in db.partners && NormalText(db.partners[key].name) && ReadKey(key) != ""
    ensures Asked(Partners, db, key) == Write(PartnerEntry(ReadKey(key), db.partners[key]))
  {
    var t, cells := Template(Partners), ExportCells(Partners, db, key);
    TemplateDistinct(Partners);
    FieldReads(t, cells, 0);
    FieldReads(t, cells, 1);
    FieldReads(t, cells, 2);
    TextIff(db.partners[key].name);
    FlagReads(db.partners[key].isActive);
    hide Trim, Upper, Bool, Guard, NormalText, ReadRecord, ExportRow, Distinct;
  }

  lemma PartnerShows(db: Db, key: string)
    requires key in db.partners && Reads(Text(key)) != ""
    ensures Shows(Partners, db, key)
  {
    var t, cells := Template(Partners), ExportCells(Partners, db, key);
    TemplateDistinct(Partners);
    PairAt(t, cells, 0);
    hide Trim, Guard, Distinct;
    assert t[0] in t && Trim(Shown(ExportRow(Partners, db, key), t[0])) == Reads(Text(key));
  }

  lemma SpacedRow(key: string)
    requires key == " A" || key == "A"
    ensures Accepted(Partners, SpacedTables(), key) && StoredAsAsked(Partners, SpacedTables(), key)
  {
    hide Asked, Shows, Reads, ReadKey, NormalCode, NormalText;
    SpacedKeys();
    PartnerAsked(SpacedTables(), key);
    PartnerShows(SpacedTables(), key);
  }

  /** Two partners with one name whose codes differ by a space: not normal, and yet the round trip changes nothing. */
  lemma UntidyNoOpExists(input: string)
    requires NormalizeResource(input) == Some(Partners)
    ensures Lists([" A", "A"], Selected(Partners, SpacedTables())) && !NormalRow(Partners, SpacedTables(), " A")
    ensures Execute(input, ExportCsv(Partners, SpacedTables(), [" A", "A"]), SpacedTables())
         == (SpacedTables(), Done(2, 0, 2))
  {
    SpacedKeys();
    SpacedOrder();
    hide NormalizeResource, Execute, ExportCsv, Reads, ReadKey, NormalCode, NormalText, Distinct, Accepted,
         StoredAsAsked;
    forall key | key in [" A", "A"]
      ensures Accepted(Partners, SpacedTables(), key) && StoredAsAsked(Partners, SpacedTables(), key)
    {
      SpacedRow(key);
    }
    hide SpacedTables;
    ExportImportIsNoOpIff(input, Partners, SpacedTables(), [" A", "A"]);
  }
}
