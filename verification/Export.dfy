/**
 The export side of apps/api/src/import-export/import-export.service.ts and what importing an
 exported file does.

 The rows are listed in any order: the source sorts by code with the database's collation, and
 the results below hold for every listing.
 */
module Export {
  import opened Csv
  import opened Options
  import opened Text
  import opened ImportExport
  import opened Uniqueness

  // ---------- rows built from a template ----------

  function Pair(headers: seq<string>, cells: seq<Cell>): Row
    requires |headers| == |cells|
  {
    if headers == [] then map[]
    else Pair(headers[1..], cells[1..])[headers[0] := cells[0]]
  }

  lemma {:induction false} PairAt(headers: seq<string>, cells: seq<Cell>, i: nat)
    requires |headers| == |cells| && i < |headers| && Distinct(headers)
    ensures CellOf(Pair(headers, cells), headers[i]) == cells[i]
  {
    if i > 0 {
      PairAt(headers[1..], cells[1..], i - 1);
    }
  }

  /** The field an import reads back from an exported cell. */
  function Reads(cell: Cell): string {
    Trim(Guard(Raw(cell)))
  }

  lemma FieldReads(headers: seq<string>, cells: seq<Cell>, i: nat)
    requires |headers| == |cells| && i < |headers| && Distinct(headers)
    ensures Field(ReadRecord(Pair(headers, cells), headers), headers[i]) == Reads(cells[i])
  {
    PairAt(headers, cells, i);
    assert headers[i] in headers;
  }

  lemma TemplateDistinct(resource: Resource)
    ensures Distinct(Template(resource))
  {
    assert "code"[1] != "city"[1];
    assert "name"[0] != "code"[0] && "name"[0] != "city"[0] && "name"[0] != "type"[0];
  }

  predicate Letters(s: string) {
    s != "" && forall i :: 0 <= i < |s| ==> 'a' <= s[i] <= 'z' || 'A' <= s[i] <= 'Z'
  }

  lemma TemplateLetters(resource: Resource)
    ensures Template(resource) != [] && forall i :: 0 <= i < |Template(resource)| ==> Letters(Template(resource)[i])
  {
  }

  lemma TemplatePlain(resource: Resource)
    ensures PlainHeaders(Template(resource))
  {
    TemplateLetters(resource);
    var t := Template(resource);
    assert Letters(t[0]) && t[0] != "";
  }

  // ---------- what an export prints ----------

  function NullableCell(value: Option<string>): Cell {
    match value
    case None => Absent
    case Some(text) => Text(text)
  }

  function PartnerCells(code: string, p: Partner): seq<Cell> {
    [Text(code), Text(p.name), Flag(p.isActive)]
  }

  function UnitCells(code: string, u: Unit): seq<Cell> {
    [Text(code), Text(u.name), NullableCell(u.city), NullableCell(u.state), Text(u.partnerCode), Flag(u.isActive)]
  }

  function EquipmentCells(tag: string, e: Equipment): seq<Cell> {
    [Text(tag), Text(e.name), Text(e.kind), NullableCell(e.serialNumber), Text(e.status), Text(e.unitCode),
     Flag(e.isActive)]
  }

  function StarlinkCells(tag: string, e: Equipment): seq<Cell> {
    [Text(tag), Text(e.name), NullableCell(e.serialNumber), Text(e.status), Text(e.unitCode), Flag(e.isActive)]
  }

  predicate Contains(s: string, part: string) {
    part <= s || (s != "" && Contains(s[1..], part))
  }

  /** The exported rows; the Starlink export keeps every kind that contains the word. */
  function Selected(resource: Resource, db: Db): set<string> {
    match resource
    case Partners => db.partners.Keys
    case Units => db.units.Keys
    case Equipments => db.equipments.Keys
    case Starlinks => set tag | tag in db.equipments && Contains(Lower(db.equipments[tag].kind), "starlink")
  }

  function ExportCells(resource: Resource, db: Db, key: string): seq<Cell>
    requires key in Selected(resource, db)
    ensures |ExportCells(resource, db, key)| == |Template(resource)|
  {
    match resource
    case Partners => PartnerCells(key, db.partners[key])
    case Units => UnitCells(key, db.units[key])
    case Equipments => EquipmentCells(key, db.equipments[key])
    case Starlinks => StarlinkCells(key, db.equipments[key])
  }

  function ExportRow(resource: Resource, db: Db, key: string): Row
    requires key in Selected(resource, db)
  {
    Pair(Template(resource), ExportCells(resource, db, key))
  }

  function ExportRows(resource: Resource, db: Db, order: seq<string>): seq<Row>
    requires forall key :: key in order ==> key in Selected(resource, db)
  {
    if order == [] then [] else [ExportRow(resource, db, order[0])] + ExportRows(resource, db, order[1..])
  }

  /** The order lists each key of the set once. */
  predicate Lists(order: seq<string>, keys: set<string>) {
    && Distinct(order)
    && (forall key :: key in order ==> key in keys)
    && (forall key :: key in keys ==> key in order)
  }

  function ExportCsv(resource: Resource, db: Db, order: seq<string>): string
    requires forall key :: key in order ==> key in Selected(resource, db)
  {
    ToCsv(ExportRows(resource, db, order), Template(resource))
  }

  // ---------- which rows survive ----------

  predicate NormalText(s: string) {
    s != "" && Trimmed(s) && !FormulaLead(s)
  }

  predicate NormalCode(s: string) {
    NormalText(s) && IsUpper(s)
  }

  predicate NormalWord(s: string) {
    NormalText(s) && IsLower(s)
  }

  predicate NormalNullable(value: Option<string>) {
    value.Some? ==> NormalText(value.value)
  }

  predicate NormalState(value: Option<string>) {
    value.Some? ==> NormalCode(value.value)
  }

  predicate NormalRow(resource: Resource, db: Db, key: string)
    requires key in Selected(resource, db)
  {
    match resource
    case Partners => NormalCode(key) && NormalText(db.partners[key].name)
    case Units =>
      var u := db.units[key];
      NormalCode(key) && NormalText(u.name) && NormalNullable(u.city) && NormalState(u.state)
          && NormalCode(u.partnerCode)
    case Equipments =>
      var e := db.equipments[key];
      && NormalCode(key) && NormalText(e.name) && NormalWord(e.kind) && NormalNullable(e.serialNumber)
      && NormalWord(e.status) && NormalCode(e.unitCode)
    case Starlinks =>
      var e := db.equipments[key];
      && NormalCode(key) && NormalText(e.name) && NormalNullable(e.serialNumber)
      && NormalWord(e.status) && NormalCode(e.unitCode)
  }

  /** What an exported row stands for; a Starlink row always stands for kind `starlink`. */
  function EntryOf(resource: Resource, db: Db, key: string): Entry
    requires key in Selected(resource, db)
  {
    match resource
    case Partners => PartnerEntry(key, db.partners[key])
    case Units => UnitEntry(key, db.units[key])
    case Equipments => EquipmentEntry(key, db.equipments[key])
    case Starlinks => EquipmentEntry(key, db.equipments[key].(kind := "starlink"))
  }

  /** The parent row an exported row refers to exists in the target tables. */
  predicate ParentIn(resource: Resource, db: Db, key: string, target: Db)
    requires key in Selected(resource, db)
  {
    match resource
    case Partners => true
    case Units => db.units[key].partnerCode in target.partners
    case _ => db.equipments[key].unitCode in target.units
  }

  /** A guarded formula is read back with its apostrophe, so it never equals the text it came from. */
  lemma GuardStays(s: string)
    requires FormulaLead(s)
    ensures Reads(Text(s)) != "" && Reads(Text(s))[0] == '\''
  {
    TrimKeepsFirst(Guard(s));
  }

  /** Reading never makes an unguarded text longer, and keeps its length only by keeping the text. */
  lemma ReadsShrinks(s: string)
    requires !FormulaLead(s)
    ensures |Reads(Text(s))| <= |s|
    ensures |Reads(Text(s))| == |s| ==> Reads(Text(s)) == s
  {
    var head, tail := TrimSplit(s);
  }

  lemma ReadsTrimmed(cell: Cell)
    ensures Trim(Reads(cell)) == Reads(cell)
  {
    var _, _ := TrimSplit(Guard(Raw(cell)));
    TrimIdentity(Reads(cell));
  }

  lemma TextIff(s: string)
    ensures Trim(Reads(Text(s))) == s && s != "" <==> NormalText(s)
  {
    ReadsTrimmed(Text(s));
    CellSurvivesIff(s);
  }

  lemma CodeIff(s: string)
    ensures Upper(Trim(Reads(Text(s)))) == s && s != "" <==> NormalCode(s)
  {
    var read := Reads(Text(s));
    ReadsTrimmed(Text(s));
    CellSurvivesIff(s);
    UpperIdentity(s);
    if FormulaLead(s) {
      GuardStays(s);
      assert Upper(read)[0] == '\'';
    } else {
      ReadsShrinks(s);
      assert |Upper(read)| == |read|;
    }
  }

  lemma WordIff(s: string, default: string)
    requires NormalWord(default)
    ensures Lower(Trim(Or(Reads(Text(s)), default))) == s <==> NormalWord(s)
  {
    var read := Reads(Text(s));
    ReadsTrimmed(Text(s));
    TrimIdentity(default);
    CellSurvivesIff(s);
    LowerIdentity(s);
    LowerIdentity(default);
    if FormulaLead(s) {
      GuardStays(s);
      assert Lower(read)[0] == '\'';
    } else {
      ReadsShrinks(s);
      assert |Lower(read)| == |read|;
    }
  }

  lemma NullableIff(value: Option<string>)
    ensures OrNull(Reads(NullableCell(value))) == value <==> NormalNullable(value)
  {
    if value.Some? {
      CellSurvivesIff(value.value);
    }
  }

  lemma StateIff(value: Option<string>)
    ensures OrNull(Upper(Reads(NullableCell(value)))) == value <==> NormalState(value)
  {
    if value.Some? {
      ReadsTrimmed(Text(value.value));
      CodeIff(value.value);
    }
  }

  lemma FlagReads(on: bool)
    ensures Bool(Reads(Flag(on))) == on
  {
    PlainWordReads(Raw(Flag(on)));
    if !on {
      assert "false"[0] != "ativo"[0] && "false"[0] != "ativa"[0];
    }
  }

  lemma PlainWordReads(s: string)
    requires Trimmed(s) && !FormulaLead(s) && IsLower(s)
    ensures Lower(Trim(Trim(Guard(s)))) == s
  {
    TrimIdentity(s);
    LowerIdentity(s);
  }

  // ---------- main results ----------

  function ReadBack(resource: Resource, db: Db, key: string): Record
    requires key in Selected(resource, db)
  {
    ReadRecord(ExportRow(resource, db, key), Template(resource))
  }

  lemma PartnerReadBack(db: Db, key: string)
    requires key in db.partners
    ensures PlanPartner(ReadBack(Partners, db, key)) == Write(EntryOf(Partners, db, key))
        <==> NormalRow(Partners, db, key)
  {
    var t, cells := Template(Partners), ExportCells(Partners, db, key);
    TemplateDistinct(Partners);
    FieldReads(t, cells, 0);
    FieldReads(t, cells, 1);
    FieldReads(t, cells, 2);
    CodeIff(key);
    TextIff(db.partners[key].name);
    FlagReads(db.partners[key].isActive);
  }

  lemma UnitReadBack(db: Db, key: string, partners: set<string>)
    requires key in db.units && db.units[key].partnerCode in partners
    ensures PlanUnit(ReadBack(Units, db, key), partners) == Write(EntryOf(Units, db, key))
        <==> NormalRow(Units, db, key)
  {
    var t, cells := Template(Units), ExportCells(Units, db, key);
    TemplateDistinct(Units);
    FieldReads(t, cells, 0);
    FieldReads(t, cells, 1);
    FieldReads(t, cells, 2);
    FieldReads(t, cells, 3);
    FieldReads(t, cells, 4);
    FieldReads(t, cells, 5);
    UnitCellsReadBack(key, db.units[key], partners);
  }

  lemma UnitCellsReadBack(code: string, u: Unit, partners: set<string>)
    requires u.partnerCode in partners
    ensures var cells := UnitCells(code, u);
            UnitFrom(Reads(cells[0]), Reads(cells[1]), Reads(cells[2]), Reads(cells[3]), Reads(cells[4]),
                     Reads(cells[5]), partners) == Write(UnitEntry(code, u))
            <==> NormalCode(code) && NormalText(u.name) && NormalNullable(u.city) && NormalState(u.state)
                 && NormalCode(u.partnerCode)
  {
    hide Reads, Trim, Upper, Bool, OrNull, NormalCode, NormalText, NormalNullable, NormalState;
    CodeIff(code);
    TextIff(u.name);
    NullableIff(u.city);
    StateIff(u.state);
    CodeIff(u.partnerCode);
    FlagReads(u.isActive);
  }

  lemma EquipmentFieldsReadBack(db: Db, key: string, units: set<string>)
    requires key in db.equipments
    ensures var cells := EquipmentCells(key, db.equipments[key]);
            PlanEquipment(ReadBack(Equipments, db, key), units, false)
            == EquipmentFrom(Reads(cells[0]), Reads(cells[1]), Lower(Trim(Or(Reads(cells[2]), "asset"))),
                             Reads(cells[3]), Reads(cells[4]), Reads(cells[5]), Reads(cells[6]), units)
  {
    hide Reads, EquipmentFrom, Trim, Lower, Or, ReadRecord;
    var t, cells := Template(Equipments), ExportCells(Equipments, db, key);
    TemplateDistinct(Equipments);
    FieldReads(t, cells, 0);
    FieldReads(t, cells, 1);
    FieldReads(t, cells, 2);
    FieldReads(t, cells, 3);
    FieldReads(t, cells, 4);
    FieldReads(t, cells, 5);
    FieldReads(t, cells, 6);
  }

  lemma EquipmentReadBack(db: Db, key: string, units: set<string>)
    requires key in db.equipments && db.equipments[key].unitCode in units
    ensures PlanEquipment(ReadBack(Equipments, db, key), units, false) == Write(EntryOf(Equipments, db, key))
            <==> NormalRow(Equipments, db, key)
  {
    hide PlanEquipment, ReadBack, EquipmentFrom, Reads, Or, Trim, Lower;
    var cells := EquipmentCells(key, db.equipments[key]);
    EquipmentFieldsReadBack(db, key, units);
    EquipmentCellsReadBack(key, db.equipments[key], Lower(Trim(Or(Reads(cells[2]), "asset"))), units);
    KindIff(db.equipments[key].kind);
  }

  lemma StarlinkReadBack(db: Db, key: string, units: set<string>)
    requires key in Selected(Starlinks, db) && db.equipments[key].unitCode in units
    ensures PlanEquipment(ReadBack(Starlinks, db, key), units, true) == Write(EntryOf(Starlinks, db, key))
            <==> NormalRow(Starlinks, db, key)
  {
    var t, cells := Template(Starlinks), ExportCells(Starlinks, db, key);
    TemplateDistinct(Starlinks);
    FieldReads(t, cells, 0);
    FieldReads(t, cells, 1);
    FieldReads(t, cells, 2);
    FieldReads(t, cells, 3);
    FieldReads(t, cells, 4);
    FieldReads(t, cells, 5);
    EquipmentCellsReadBack(key, db.equipments[key], "starlink", units);
  }

  lemma StatusIff(s: string)
    ensures Lower(Trim(Or(Reads(Text(s)), "active"))) == s <==> NormalWord(s)
  {
    WordIff(s, "active");
  }

  lemma KindIff(s: string)
    ensures Lower(Trim(Or(Reads(Text(s)), "asset"))) == s <==> NormalWord(s)
  {
    WordIff(s, "asset");
  }

  lemma EquipmentCellsReadBack(tag: string, e: Equipment, kind: string, units: set<string>)
    requires e.unitCode in units
    ensures EquipmentFrom(Reads(Text(tag)), Reads(Text(e.name)), kind, Reads(NullableCell(e.serialNumber)),
                          Reads(Text(e.status)), Reads(Text(e.unitCode)), Reads(Flag(e.isActive)), units)
            == Write(EquipmentEntry(tag, e.(kind := kind)))
            <==> NormalCode(tag) && NormalText(e.name) && NormalNullable(e.serialNumber) && NormalWord(e.status)
                 && NormalCode(e.unitCode)
    ensures var plan := EquipmentFrom(Reads(Text(tag)), Reads(Text(e.name)), kind, Reads(NullableCell(e.serialNumber)),
                                      Reads(Text(e.status)), Reads(Text(e.unitCode)), Reads(Flag(e.isActive)), units);
            plan.Write? ==> plan.entry.EquipmentEntry? && plan.entry.equipment.kind == kind
  {
    hide Reads, Trim, Upper, Lower, Bool, Or, OrNull, NormalCode, NormalText, NormalWord, NormalNullable;
    CodeIff(tag);
    TextIff(e.name);
    NullableIff(e.serialNumber);
    StatusIff(e.status);
    CodeIff(e.unitCode);
    FlagReads(e.isActive);
  }

  /** An exported row asks an import to write exactly the row it came from if and only if it is normal. */
  lemma ReadBackIff(resource: Resource, db: Db, key: string, target: Db)
    requires key in Selected(resource, db) && ParentIn(resource, db, key, target)
    ensures Plan(resource, ReadBack(resource, db, key), target) == Write(EntryOf(resource, db, key))
            <==> NormalRow(resource, db, key)
  {
    match resource
    case Partners => PartnerReadBack(db, key);
    case Units => UnitReadBack(db, key, target.partners.Keys);
    case Equipments => EquipmentReadBack(db, key, target.units.Keys);
    case Starlinks => StarlinkReadBack(db, key, target.units.Keys);
  }

  lemma ExportRowSurvives(resource: Resource, db: Db, key: string)
    requires key in Selected(resource, db) && NormalRow(resource, db, key)
    ensures Survives(ExportRow(resource, db, key), Template(resource))
  {
    hide Trim, Guard, Distinct;
    var t, cells := Template(resource), ExportCells(resource, db, key);
    TemplateDistinct(resource);
    PairAt(t, cells, 0);
    CellSurvivesIff(key);
    assert t[0] in t && Trim(Shown(ExportRow(resource, db, key), t[0])) == key;
  }

  function EntriesOf(resource: Resource, db: Db, order: seq<string>): seq<Entry>
    requires forall key :: key in order ==> key in Selected(resource, db)
  {
    if order == [] then [] else [EntryOf(resource, db, order[0])] + EntriesOf(resource, db, order[1..])
  }

  /** Every listed row is normal and its parent is among the target tables. */
  predicate Restorable(resource: Resource, db: Db, order: seq<string>, target: Db) {
    forall key :: key in order ==>
      key in Selected(resource, db) && NormalRow(resource, db, key) && ParentIn(resource, db, key, target)
  }

  lemma {:induction false} PlansOfExport(resource: Resource, db: Db, order: seq<string>, target: Db)
    requires Restorable(resource, db, order, target)
    ensures var plans := PlanAll(resource, ReadRecords(ExportRows(resource, db, order), Template(resource)), target);
            |plans| == |order| && Written(plans) == EntriesOf(resource, db, order)
  {
    hide Template, ExportRow, Plan, EntryOf, ReadRecord, Survives, NormalRow, ParentIn;
    if order != [] {
      ExportRowSurvives(resource, db, order[0]);
      ReadBackIff(resource, db, order[0], target);
      PlansOfExport(resource, db, order[1..], target);
      var first := ReadBack(resource, db, order[0]);
      var rest := ReadRecords(ExportRows(resource, db, order[1..]), Template(resource));
      assert ([first] + rest)[1..] == rest;
      var plans := PlanAll(resource, rest, target);
      assert ([Plan(resource, first, target)] + plans)[1..] == plans;
    }
  }

  /** The equipment an export stands for: a Starlink file no longer knows the kind. */
  function ExportedEquipments(resource: Resource, db: Db): map<string, Equipment> {
    if resource == Starlinks then
      map tag | tag in Selected(Starlinks, db) :: db.equipments[tag].(kind := "starlink")
    else db.equipments
  }

  function Only<V>(table: map<string, V>, keys: set<string>): map<string, V> {
    map k | k in keys && k in table :: table[k]
  }

  /** The target tables with the given exported rows written over them. */
  function Restore(resource: Resource, db: Db, keys: set<string>, target: Db): Db {
    match resource
    case Partners => target.(partners := target.partners + Only(db.partners, keys))
    case Units => target.(units := target.units + Only(db.units, keys))
    case _ => target.(equipments := target.equipments + Only(ExportedEquipments(resource, db), keys))
  }

  function TableKeys(resource: Resource, db: Db): set<string> {
    match resource
    case Partners => db.partners.Keys
    case Units => db.units.Keys
    case _ => db.equipments.Keys
  }

  function KeySet(order: seq<string>): set<string> {
    set key | key in order
  }

  lemma OnlyStep<V>(table: map<string, V>, source: map<string, V>, key: string, keys: set<string>)
    requires key in source
    ensures table[key := source[key]] + Only(source, keys) == table + Only(source, {key} + keys)
  {
  }

  lemma RestoreStep(resource: Resource, db: Db, key: string, keys: set<string>, target: Db)
    requires key in Selected(resource, db)
    ensures Restore(resource, db, keys, Put(target, EntryOf(resource, db, key))) == Restore(resource, db,
        {key} + keys, target)
    ensures TableKeys(resource, Put(target, EntryOf(resource, db, key))) == TableKeys(resource, target) + {key}
    ensures Has(target, EntryOf(resource, db, key)) <==> key in TableKeys(resource, target)
  {
    hide Contains, Lower, Only;
    match resource
    case Partners => OnlyStep(target.partners, db.partners, key, keys);
    case Units => OnlyStep(target.units, db.units, key, keys);
    case _ => OnlyStep(target.equipments, ExportedEquipments(resource, db), key, keys);
  }

  lemma EntriesCons(resource: Resource, db: Db, order: seq<string>)
    requires order != [] && forall key :: key in order ==> key in Selected(resource, db)
    ensures EntriesOf(resource, db, order) != []
    ensures EntriesOf(resource, db, order)[0] == EntryOf(resource, db, order[0])
    ensures EntriesOf(resource, db, order)[1..] == EntriesOf(resource, db, order[1..])
  {
  }

  lemma RestoreNone(resource: Resource, db: Db, target: Db)
    ensures Restore(resource, db, {}, target) == target
  {
    assert target.partners + map[] == target.partners;
    assert target.units + map[] == target.units;
    assert target.equipments + map[] == target.equipments;
  }

  lemma {:induction false} PutAllRestores(resource: Resource, db: Db, order: seq<string>, target: Db)
    requires forall key :: key in order ==> key in Selected(resource, db)
    ensures PutAll(target, EntriesOf(resource, db, order)) == Restore(resource, db, KeySet(order), target)
    decreases |order|
  {
    hide EntryOf, Put, Restore, Selected, EntriesOf;
    if order == [] {
      RestoreNone(resource, db, target);
      assert KeySet(order) == {};
      assert EntriesOf(resource, db, order) == [] by { EntriesNone(resource, db); }
    } else {
      var key, rest := order[0], order[1..];
      EntriesCons(resource, db, order);
      PutAllRestores(resource, db, rest, Put(target, EntryOf(resource, db, key)));
      RestoreStep(resource, db, key, KeySet(rest), target);
      KeySetCons(order);
    }
  }

  lemma EntriesNone(resource: Resource, db: Db)
    ensures EntriesOf(resource, db, []) == []
  {
  }

  lemma KeySetCons(order: seq<string>)
    requires order != []
    ensures KeySet(order) == {order[0]} + KeySet(order[1..])
  {
    assert order == [order[0]] + order[1..];
  }

  lemma {:induction false} NewCountOfExport(resource: Resource, db: Db, order: seq<string>, target: Db)
    requires forall key :: key in order ==> key in Selected(resource, db)
    requires Distinct(order)
    ensures NewCount(target, EntriesOf(resource, db, order)) == |KeySet(order) - TableKeys(resource, target)|
    decreases |order|
  {
    hide EntryOf, Put, Has, TableKeys, Selected, EntriesOf, Restore;
    if order == [] {
      EntriesNone(resource, db);
      assert KeySet(order) == {};
    } else {
      var key, rest := order[0], order[1..];
      EntriesCons(resource, db, order);
      NewCountOfExport(resource, db, rest, Put(target, EntryOf(resource, db, key)));
      RestoreStep(resource, db, key, KeySet(rest), target);
      KeySetCons(order);
      assert [key] + rest == order;
      NewKeys(key, rest, TableKeys(resource, target));
    }
  }

  lemma NewKeys(key: string, rest: seq<string>, table: set<string>)
    requires Distinct([key] + rest)
    ensures |({key} + KeySet(rest)) - table| == (if key in table then 0 else 1) + |KeySet(rest) - (table + {key})|
  {
    var both := [key] + rest;
    forall k | k in rest ensures k != key {
      var i :| 0 <= i < |rest| && rest[i] == k;
      assert both[0] == key && both[i + 1] == k;
    }
    var without := KeySet(rest) - (table + {key});
    assert ({key} + KeySet(rest)) - table == if key in table then without else {key} + without;
  }

  /**
   Importing an exported file into any tables that hold the parents: every exported row is written
   as it was, nothing else changes, and the report counts exactly the rows that were not there.
   */
  lemma ExportThenImport(input: string, resource: Resource, db: Db, order: seq<string>, target: Db)
    requires NormalizeResource(input) == Some(resource)
    requires Lists(order, Selected(resource, db)) && Restorable(resource, db, order, target)
    ensures var added := |Selected(resource, db) - TableKeys(resource, target)|;
            && added <= |order|
            && Execute(input, ExportCsv(resource, db, order), target)
               == (Restore(resource, db, Selected(resource, db), target), Done(|order|, added, |order| - added))
  {
    hide Template, NormalizeResource, Selected, NormalRow, ParentIn, ToCsv, Parse, Plan, PutAll, Restore, TableKeys,
         EntriesOf, PlanAll, Written, NewCount, ReadRecords, Import, Replay, ExportRows;
    var rows := ExportRows(resource, db, order);
    var records := ReadRecords(rows, Template(resource));
    TemplatePlain(resource);
    RoundTrip(rows, Template(resource));
    ImportIsReplay(resource, records, 2, target, 0, 0);
    PlansOfExport(resource, db, order, target);
    ReplayIsPutAll(PlanAll(resource, records, target), 2, target, 0, 0);
    PutAllRestores(resource, db, order, target);
    NewCountOfExport(resource, db, order, target);
    EntriesLength(resource, db, order);
    assert KeySet(order) == Selected(resource, db);
  }

  lemma {:induction false} EntriesLength(resource: Resource, db: Db, order: seq<string>)
    requires forall key :: key in order ==> key in Selected(resource, db)
    ensures |EntriesOf(resource, db, order)| == |order|
  {
    if order != [] {
      EntriesLength(resource, db, order[1..]);
    }
  }

  /** For normalised tables, exporting and importing partners, units or equipments is a no-op. */
  lemma ExportImportIsNoOp(input: string, resource: Resource, db: Db, order: seq<string>)
    requires NormalizeResource(input) == Some(resource) && resource != Starlinks
    requires Lists(order, Selected(resource, db)) && Restorable(resource, db, order, db)
    ensures Execute(input, ExportCsv(resource, db, order), db) == (db, Done(|order|, 0, |order|))
  {
    hide NormalizeResource, NormalRow, ParentIn, ExportCsv, Execute;
    ExportThenImport(input, resource, db, order, db);
    assert Selected(resource, db) - TableKeys(resource, db) == {};
    RestoreSelf(resource, db);
  }

  lemma RestoreSelf(resource: Resource, db: Db)
    requires resource != Starlinks
    ensures Restore(resource, db, Selected(resource, db), db) == db
  {
    assert db.partners + Only(db.partners, db.partners.Keys) == db.partners;
    assert db.units + Only(db.units, db.units.Keys) == db.units;
    assert db.equipments + Only(db.equipments, db.equipments.Keys) == db.equipments;
  }

  /**
   The Starlink file drops the kind and selects by substring, so its round trip is a no-op exactly
   when every selected kind is the bare word.
   */
  lemma StarlinkNoOpIff(input: string, db: Db, order: seq<string>)
    requires NormalizeResource(input) == Some(Starlinks)
    requires Lists(order, Selected(Starlinks, db)) && Restorable(Starlinks, db, order, db)
    ensures Execute(input, ExportCsv(Starlinks, db, order), db).0 == db
            <==> forall tag :: tag in Selected(Starlinks, db) ==> db.equipments[tag].kind == "starlink"
  {
    hide NormalizeResource, NormalRow, ParentIn, ExportCsv, Execute;
    ExportThenImport(input, Starlinks, db, order, db);
    StarlinkRestoreIff(db);
  }

  lemma StarlinkRestoreIff(db: Db)
    ensures Restore(Starlinks, db, Selected(Starlinks, db), db) == db
            <==> forall tag :: tag in Selected(Starlinks, db) ==> db.equipments[tag].kind == "starlink"
  {
    hide Contains, Lower;
    var written := Only(ExportedEquipments(Starlinks, db), Selected(Starlinks, db));
    var after := db.equipments + written;
    if forall tag :: tag in Selected(Starlinks, db) ==> db.equipments[tag].kind == "starlink" {
      assert after == db.equipments;
    } else {
      var tag :| tag in Selected(Starlinks, db) && db.equipments[tag].kind != "starlink";
      assert after[tag].kind == "starlink";
    }
  }
}
