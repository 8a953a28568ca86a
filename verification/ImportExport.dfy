/**
 Bulk import and export of apps/api/src/import-export/import-export.service.ts.

 Every CSV row is first turned into the row it would write (`Plan`) and then upserted (`Put`).
 Codes and tags stand for the rows' identifiers: they are unique and an import never changes them.
 */
module ImportExport {
  import opened Csv
  import opened Options
  import opened Text

  datatype Resource = Partners | Units | Equipments | Starlinks

  datatype Partner = Partner(name: string, isActive: bool)
  datatype Unit = Unit(name: string, city: Option<string>, state: Option<string>, partnerCode: string, isActive: bool)
  datatype Equipment = Equipment(
    name: string, kind: string, serialNumber: Option<string>, status: string, unitCode: string, isActive: bool)

  datatype Db = Db(partners: map<string, Partner>, units: map<string, Unit>, equipments: map<string, Equipment>)

  /** The row one CSV record asks to write. */
  datatype Entry =
    | PartnerEntry(code: string, partner: Partner)
    | UnitEntry(code: string, unit: Unit)
    | EquipmentEntry(tag: string, equipment: Equipment)

  datatype Reason = Missing(field: string) | UnknownPartner | UnknownUnit

  datatype Planned = Write(entry: Entry) | Refuse(reason: Reason)

  datatype Outcome =
    | Done(totalRows: nat, created: nat, updated: nat)
    | Rejected(line: nat, reason: Reason)
    | BadResource

  function NormalizeResource(input: string): Option<Resource> {
    var resource := Lower(Trim(input));
    if resource == "partners" then Some(Partners)
    else if resource == "units" then Some(Units)
    else if resource == "equipments" then Some(Equipments)
    else if resource == "starlinks" then Some(Starlinks)
    else None
  }

  function Template(resource: Resource): seq<string> {
    match resource
    case Partners => ["code", "name", "isActive"]
    case Units => ["code", "name", "city", "state", "partnerCode", "isActive"]
    case Equipments => ["tag", "name", "type", "serialNumber", "status", "unitCode", "isActive"]
    case Starlinks => ["tag", "name", "serialNumber", "status", "unitCode", "isActive"]
  }

  // ---------- reading one record ----------

  function Field(row: Record, name: string): string {
    if name in row then row[name] else ""
  }

  /** A required field is the trimmed text; the empty string means it is missing. */
  function Required(row: Record, name: string): string {
    Trim(Field(row, name))
  }

  function Bool(value: string): bool {
    var normalized := Lower(Trim(value));
    normalized == "" || normalized in {"1", "true", "sim", "yes", "ativo", "ativa"}
  }

  function PlanPartner(row: Record): Planned {
    var code := Upper(Required(row, "code"));
    var name := Required(row, "name");
    if code == "" then Refuse(Missing("code"))
    else if name == "" then Refuse(Missing("name"))
    else Write(PartnerEntry(code, Partner(name, Bool(Field(row, "isActive")))))
  }

  function PlanUnit(row: Record, partners: set<string>): Planned {
    UnitFrom(Field(row, "code"), Field(row, "name"), Field(row, "city"), Field(row, "state"),
             Field(row, "partnerCode"), Field(row, "isActive"), partners)
  }

  function UnitFrom(codeField: string, nameField: string, city: string, state: string, partnerField: string,
                    active: string, partners: set<string>): Planned
  {
    var code, name, partnerCode := Upper(Trim(codeField)), Trim(nameField), Upper(Trim(partnerField));
    if code == "" then Refuse(Missing("code"))
    else if name == "" then Refuse(Missing("name"))
    else if partnerCode == "" then Refuse(Missing("partnerCode"))
    else if partnerCode !in partners then Refuse(UnknownPartner)
    else Write(UnitEntry(code, Unit(name, OrNull(city), OrNull(Upper(state)), partnerCode, Bool(active))))
  }

  function PlanEquipment(row: Record, units: set<string>, starlink: bool): Planned {
    var kind := if starlink then "starlink" else Lower(Trim(Or(Field(row, "type"), "asset")));
    EquipmentFrom(Field(row, "tag"), Field(row, "name"), kind, Field(row, "serialNumber"), Field(row, "status"),
                  Field(row, "unitCode"), Field(row, "isActive"), units)
  }

  function EquipmentFrom(tagField: string, nameField: string, kind: string, serial: string, statusField: string,
                         unitField: string, active: string, units: set<string>): Planned
  {
    var tag, name, unitCode := Upper(Trim(tagField)), Trim(nameField), Upper(Trim(unitField));
    var status := Lower(Trim(Or(statusField, "active")));
    if tag == "" then Refuse(Missing("tag"))
    else if name == "" then Refuse(Missing("name"))
    else if unitCode == "" then Refuse(Missing("unitCode"))
    else if unitCode !in units then Refuse(UnknownUnit)
    else Write(EquipmentEntry(tag, Equipment(name, kind, OrNull(serial), status, unitCode, Bool(active))))
  }

  function Plan(resource: Resource, row: Record, db: Db): Planned {
    match resource
    case Partners => PlanPartner(row)
    case Units => PlanUnit(row, db.partners.Keys)
    case Equipments => PlanEquipment(row, db.units.Keys, false)
    case Starlinks => PlanEquipment(row, db.units.Keys, true)
  }

  // ---------- upserting ----------

  predicate Has(db: Db, entry: Entry) {
    match entry
    case PartnerEntry(code, _) => code in db.partners
    case UnitEntry(code, _) => code in db.units
    case EquipmentEntry(tag, _) => tag in db.equipments
  }

  function Put(db: Db, entry: Entry): Db {
    match entry
    case PartnerEntry(code, p) => db.(partners := db.partners[code := p])
    case UnitEntry(code, u) => db.(units := db.units[code := u])
    case EquipmentEntry(tag, e) => db.(equipments := db.equipments[tag := e])
  }

  /** Rows are written one by one; the first refused row stops the import and keeps what was written. */
  function Import(resource: Resource, rows: seq<Record>, line: nat, db: Db, created: nat, updated: nat): (Db, Outcome) {
    if rows == [] then (db, Done(created + updated, created, updated))
    else
      match Plan(resource, rows[0], db)
      case Refuse(reason) => (db, Rejected(line, reason))
      case Write(entry) =>
        if Has(db, entry) then Import(resource, rows[1..], line + 1, Put(db, entry), created, updated + 1)
        else Import(resource, rows[1..], line + 1, Put(db, entry), created + 1, updated)
  }

  function Execute(resourceInput: string, csv: string, db: Db): (Db, Outcome) {
    match NormalizeResource(resourceInput)
    case None => (db, BadResource)
    case Some(resource) => Import(resource, Parse(csv), 2, db, 0, 0)
  }

  lemma ImportTurn(resource: Resource, rows: seq<Record>, index: nat, db: Db, created: nat, updated: nat)
    requires index < |rows|
    ensures Import(resource, rows[index..], index + 2, db, created, updated)
         == match Plan(resource, rows[index], db)
            case Refuse(reason) => (db, Rejected(index + 2, reason))
            case Write(entry) =>
              if Has(db, entry)
              then Import(resource, rows[index + 1..], index + 3, Put(db, entry), created, updated + 1)
              else Import(resource, rows[index + 1..], index + 3, Put(db, entry), created + 1, updated)
  {
    assert rows[index..][1..] == rows[index + 1..];
  }

  class ImportExportService {
    var partners: map<string, Partner>
    var units: map<string, Unit>
    var equipments: map<string, Equipment>

    ghost function Tables(): Db
      reads this
    {
      Db(partners, units, equipments)
    }

    constructor (db: Db)
      ensures Tables() == db
    {
      partners, units, equipments := db.partners, db.units, db.equipments;
    }

    /** One turn of the import loop: plan, look up, upsert. */
    method ImportRow(resource: Resource, row: Record) returns (refused: Option<Reason>, existing: bool)
      modifies this
      ensures match Plan(resource, row, old(Tables()))
              case Refuse(reason) => refused == Some(reason) && Tables() == old(Tables())
              case Write(entry) =>
                refused == None && existing == Has(old(Tables()), entry) && Tables() == Put(old(Tables()), entry)
    {
      refused, existing := None, false;
      if resource == Partners {
        var plan := PlanPartner(row);
        if plan.Refuse? {
          return Some(plan.reason), false;
        }
        existing := plan.entry.code in partners;
        partners := partners[plan.entry.code := plan.entry.partner];
      } else if resource == Units {
        var plan := PlanUnit(row, partners.Keys);
        if plan.Refuse? {
          return Some(plan.reason), false;
        }
        existing := plan.entry.code in units;
        units := units[plan.entry.code := plan.entry.unit];
      } else {
        var plan := PlanEquipment(row, units.Keys, resource == Starlinks);
        if plan.Refuse? {
          return Some(plan.reason), false;
        }
        existing := plan.entry.tag in equipments;
        equipments := equipments[plan.entry.tag := plan.entry.equipment];
      }
    }

    method ImportRows(resource: Resource, rows: seq<Record>) returns (outcome: Outcome)
      modifies this
      ensures (Tables(), outcome) == Import(resource, rows, 2, old(Tables()), 0, 0)
    {
      hide Plan;
      var created, updated := 0, 0;
      var index := 0;
      assert rows[0..] == rows;
      while index < |rows|
        invariant 0 <= index <= |rows| && created + updated == index
        invariant Import(resource, rows[index..], index + 2, Tables(), created, updated)
               == Import(resource, rows, 2, old(Tables()), 0, 0)
      {
        ImportTurn(resource, rows, index, Tables(), created, updated);
        var refused, existing := ImportRow(resource, rows[index]);
        if refused.Some? {
          return Rejected(index + 2, refused.value);
        }
        if existing {
          updated := updated + 1;
        } else {
          created := created + 1;
        }
        index := index + 1;
      }
      assert rows[index..] == [];
      outcome := Done(|rows|, created, updated);
    }

    method ExecuteImport(resourceInput: string, csv: string) returns (outcome: Outcome)
      modifies this
      ensures (Tables(), outcome) == Execute(resourceInput, csv, old(Tables()))
    {
      var resource := NormalizeResource(resourceInput);
      if resource == None {
        return BadResource;
      }
      var rows := ParseCsv(csv);
      outcome := ImportRows(resource.value, rows);
    }
  }

  // ---------- an import as one bulk write ----------

  predicate Belongs(resource: Resource, entry: Entry) {
    match resource
    case Partners => entry.PartnerEntry?
    case Units => entry.UnitEntry?
    case _ => entry.EquipmentEntry?
  }

  lemma PlanBelongs(resource: Resource, row: Record, db: Db)
    ensures Plan(resource, row, db).Write? ==> Belongs(resource, Plan(resource, row, db).entry)
  {
  }

  /** Planning reads only the parent table, which the import does not write. */
  lemma PlanStable(resource: Resource, row: Record, db: Db, entry: Entry)
    requires Belongs(resource, entry)
    ensures Plan(resource, row, Put(db, entry)) == Plan(resource, row, db)
  {
  }

  /** Every record planned against the same tables. */
  function PlanAll(resource: Resource, rows: seq<Record>, db: Db): seq<Planned> {
    if rows == [] then [] else [Plan(resource, rows[0], db)] + PlanAll(resource, rows[1..], db)
  }

  lemma {:induction false} PlanAllStable(resource: Resource, rows: seq<Record>, db: Db, entry: Entry)
    requires Belongs(resource, entry)
    ensures PlanAll(resource, rows, Put(db, entry)) == PlanAll(resource, rows, db)
  {
    if rows != [] {
      PlanStable(resource, rows[0], db, entry);
      PlanAllStable(resource, rows[1..], db, entry);
    }
  }

  lemma {:induction false} PlanAllBelongs(resource: Resource, rows: seq<Record>, db: Db)
    ensures |PlanAll(resource, rows, db)| == |rows|
    ensures forall p :: p in PlanAll(resource, rows, db) && p.Write? ==> Belongs(resource, p.entry)
  {
    if rows != [] {
      PlanBelongs(resource, rows[0], db);
      PlanAllBelongs(resource, rows[1..], db);
    }
  }

  /** The import loop over plans made beforehand. */
  function Replay(plans: seq<Planned>, line: nat, db: Db, created: nat, updated: nat): (Db, Outcome)
    decreases |plans|
  {
    if plans == [] then (db, Done(created + updated, created, updated))
    else
      match plans[0]
      case Refuse(reason) => (db, Rejected(line, reason))
      case Write(entry) =>
        if Has(db, entry) then Replay(plans[1..], line + 1, Put(db, entry), created, updated + 1)
        else Replay(plans[1..], line + 1, Put(db, entry), created + 1, updated)
  }

  lemma {:induction false} ImportIsReplay(resource: Resource, rows: seq<Record>, line: nat, db: Db, created: nat,
                                          updated: nat)
    ensures Import(resource, rows, line, db, created, updated)
         == Replay(PlanAll(resource, rows, db), line, db, created, updated)
    decreases |rows|
  {
    if rows != [] {
      var plan, plans := Plan(resource, rows[0], db), PlanAll(resource, rows[1..], db);
      assert ([plan] + plans)[1..] == plans;
      if plan.Write? {
        PlanBelongs(resource, rows[0], db);
        PlanAllStable(resource, rows[1..], db, plan.entry);
        var next := Put(db, plan.entry);
        if Has(db, plan.entry) {
          ImportIsReplay(resource, rows[1..], line + 1, next, created, updated + 1);
        } else {
          ImportIsReplay(resource, rows[1..], line + 1, next, created + 1, updated);
        }
      }
    }
  }

  function PutAll(db: Db, entries: seq<Entry>): Db
    decreases |entries|
  {
    if entries == [] then db else PutAll(Put(db, entries[0]), entries[1..])
  }

  /** How many of the entries are new when they are written in order. */
  function NewCount(db: Db, entries: seq<Entry>): (n: nat)
    ensures n <= |entries|
    decreases |entries|
  {
    if entries == [] then 0
    else (if Has(db, entries[0]) then 0 else 1) + NewCount(Put(db, entries[0]), entries[1..])
  }

  /** The entries written before the first refusal. */
  function Written(plans: seq<Planned>): (entries: seq<Entry>)
    ensures |entries| <= |plans|
    ensures forall e :: e in entries ==> Write(e) in plans
    ensures |entries| < |plans| ==> plans[|entries|].Refuse?
  {
    if plans == [] || plans[0].Refuse? then [] else [plans[0].entry] + Written(plans[1..])
  }

  function Report(plans: seq<Planned>, line: nat, added: nat, created: nat, updated: nat): Outcome
    requires added <= |plans|
  {
    var n := |Written(plans)|;
    if n < |plans| then Rejected(line + n, plans[n].reason)
    else Done(created + updated + |plans|, created + added, updated + |plans| - added)
  }

  lemma {:induction false} ReplayIsPutAll(plans: seq<Planned>, line: nat, db: Db, created: nat, updated: nat)
    ensures var entries := Written(plans);
            Replay(plans, line, db, created, updated)
            == (PutAll(db, entries), Report(plans, line, NewCount(db, entries), created, updated))
    decreases |plans|
  {
    if plans != [] && plans[0].Write? {
      var next := Put(db, plans[0].entry);
      assert ([plans[0].entry] + Written(plans[1..]))[1..] == Written(plans[1..]);
      if Has(db, plans[0].entry) {
        ReplayIsPutAll(plans[1..], line + 1, next, created, updated + 1);
      } else {
        ReplayIsPutAll(plans[1..], line + 1, next, created + 1, updated);
      }
    }
  }

  // ---------- importing the same file twice ----------

  const NOTHING := Db(map[], map[], map[])

  function Merge(db: Db, over: Db): Db {
    Db(db.partners + over.partners, db.units + over.units, db.equipments + over.equipments)
  }

  lemma PutMerge(db: Db, over: Db, entry: Entry)
    ensures Put(Merge(db, over), entry) == Merge(db, Put(over, entry))
  {
    match entry
    case PartnerEntry(code, p) =>
      assert (db.partners + over.partners)[code := p] == db.partners + over.partners[code := p];
    case UnitEntry(code, u) => assert (db.units + over.units)[code := u] == db.units + over.units[code := u];
    case EquipmentEntry(tag, e) =>
      assert (db.equipments + over.equipments)[tag := e] == db.equipments + over.equipments[tag := e];
  }

  lemma {:induction false} PutAllIsMerge(db: Db, over: Db, entries: seq<Entry>)
    ensures PutAll(Merge(db, over), entries) == Merge(db, PutAll(over, entries))
    decreases |entries|
  {
    if entries != [] {
      PutMerge(db, over, entries[0]);
      PutAllIsMerge(db, Put(over, entries[0]), entries[1..]);
    }
  }

  lemma PutAllTwice(db: Db, entries: seq<Entry>)
    ensures PutAll(PutAll(db, entries), entries) == PutAll(db, entries)
  {
    var over := PutAll(NOTHING, entries);
    MergeNothing(db);
    PutAllIsMerge(db, NOTHING, entries);
    MergeNothing(Merge(db, over));
    PutAllIsMerge(Merge(db, over), NOTHING, entries);
    MergeTwice(db, over);
  }

  lemma MergeNothing(db: Db)
    ensures Merge(db, NOTHING) == db
  {
    assert db.partners + map[] == db.partners;
    assert db.units + map[] == db.units;
    assert db.equipments + map[] == db.equipments;
  }

  lemma MergeTwice(db: Db, over: Db)
    ensures Merge(Merge(db, over), over) == Merge(db, over)
  {
    assert db.partners + over.partners + over.partners == db.partners + over.partners;
    assert db.units + over.units + over.units == db.units + over.units;
    assert db.equipments + over.equipments + over.equipments == db.equipments + over.equipments;
  }

  lemma {:induction false} PutAllHas(db: Db, entries: seq<Entry>, entry: Entry)
    requires entry in entries || Has(db, entry)
    ensures Has(PutAll(db, entries), entry)
    decreases |entries|
  {
    if entries != [] {
      assert entry in entries ==> entry == entries[0] || entry in entries[1..];
      PutAllHas(Put(db, entries[0]), entries[1..], entry);
    }
  }

  lemma {:induction false} NoneNew(db: Db, entries: seq<Entry>)
    requires forall e :: e in entries ==> Has(db, e)
    ensures NewCount(db, entries) == 0
    decreases |entries|
  {
    if entries != [] {
      var next := Put(db, entries[0]);
      forall e | e in entries[1..] ensures Has(next, e) {
        assert e in entries;
      }
      NoneNew(next, entries[1..]);
    }
  }

  lemma {:induction false} PlanAllAfter(resource: Resource, rows: seq<Record>, db: Db, entries: seq<Entry>)
    requires forall e :: e in entries ==> Belongs(resource, e)
    ensures PlanAll(resource, rows, PutAll(db, entries)) == PlanAll(resource, rows, db)
    decreases |entries|
  {
    if entries != [] {
      PlanAllStable(resource, rows, db, entries[0]);
      PlanAllAfter(resource, rows, Put(db, entries[0]), entries[1..]);
    }
  }

  /**
   Importing any file a second time changes nothing: it stops at the same line, or it finishes with
   every row counted as updated.
   */
  lemma ImportTwice(resource: Resource, rows: seq<Record>, db: Db)
    ensures var (once, first) := Import(resource, rows, 2, db, 0, 0);
            Import(resource, rows, 2, once, 0, 0)
            == (once, if first.Done? then Done(|rows|, 0, |rows|) else first)
  {
    var plans := PlanAll(resource, rows, db);
    var entries := Written(plans);
    var once := PutAll(db, entries);
    ImportIsReplay(resource, rows, 2, db, 0, 0);
    ImportIsReplay(resource, rows, 2, once, 0, 0);
    PlanAllBelongs(resource, rows, db);
    PlanAllAfter(resource, rows, db, entries);
    ReplayIsPutAll(plans, 2, db, 0, 0);
    ReplayIsPutAll(plans, 2, once, 0, 0);
    PutAllTwice(db, entries);
    forall e | e in entries ensures Has(once, e) {
      PutAllHas(db, entries, e);
    }
    NoneNew(once, entries);
  }
}
