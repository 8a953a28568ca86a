/**
 What a bulk import of apps/api/src/import-export/import-export.service.ts does, said of its records and tables
 alone: which records it accepts, what it stores of them, and what it reports.
 */
module ImportLaws {
  import opened Csv
  import opened ImportExport
  import opened Options
  import opened Text

  // ---------- one record ----------

  /** The resource that the request names, in any case and with white space around it. */
  ghost predicate Names(input: string, resource: Resource) {
    Lower(Trim(input)) == match resource
                          case Partners => "partners"
                          case Units => "units"
                          case Equipments => "equipments"
                          case Starlinks => "starlinks"
  }

  ghost predicate Empty(row: Record, column: string) {
    column in row ==> Trim(row[column]) == ""
  }

  /** The columns that must not be empty, in the order in which they are asked for. */
  ghost function Needed(resource: Resource): seq<string> {
    match resource
    case Partners => ["code", "name"]
    case Units => ["code", "name", "partnerCode"]
    case _ => ["tag", "name", "unitCode"]
  }

  ghost predicate Complete(resource: Resource, row: Record) {
    forall k :: 0 <= k < |Needed(resource)| ==> !Empty(row, Needed(resource)[k])
  }

  /** A record is active unless it says something else than yes. */
  ghost predicate SaysYes(row: Record) {
    Empty(row, "isActive") || Lower(Trim(row["isActive"])) in {"1", "true", "sim", "yes", "ativo", "ativa"}
  }

  /** A column that may be left out: its text as it is. */
  ghost predicate Given(row: Record, column: string, text: Option<string>) {
    if column in row && row[column] != "" then text == Some(row[column]) else text.None?
  }

  /** A column that stands for its usual value when it is left out: its trimmed text in small letters. */
  ghost predicate GivenOr(row: Record, column: string, usual: string, text: string) {
    text == if column in row && row[column] != "" then Lower(Trim(row[column])) else usual
  }

  ghost predicate PartnerAsked(row: Record, partner: Partner) {
    "name" in row && partner == Partner(Trim(row["name"]), SaysYes(row))
  }

  ghost predicate UnitAsked(row: Record, db: Db, unit: Unit) {
    && "name" in row && unit.name == Trim(row["name"]) && unit.isActive == SaysYes(row) && Given(row, "city", unit.city)
    && "partnerCode" in row && unit.partnerCode == Upper(Trim(row["partnerCode"])) && unit.partnerCode in db.partners
    && exists state :: Given(row, "state", state)
                       && unit.state == if state.Some? then Some(Upper(state.value)) else None
  }

  ghost predicate EquipmentAsked(row: Record, db: Db, starlink: bool, equipment: Equipment) {
    && "name" in row && equipment.name == Trim(row["name"]) && equipment.isActive == SaysYes(row)
    && (if starlink then equipment.kind == "starlink" else GivenOr(row, "type", "asset", equipment.kind))
    && Given(row, "serialNumber", equipment.serialNumber) && GivenOr(row, "status", "active", equipment.status)
    && "unitCode" in row && equipment.unitCode == Upper(Trim(row["unitCode"])) && equipment.unitCode in db.units
  }

  /** The record is accepted, and asks for this row. */
  ghost predicate Accepted(resource: Resource, row: Record, db: Db, entry: Entry) {
    && Complete(resource, row)
    && match resource
       case Partners => entry.PartnerEntry? && "code" in row && entry.code == Upper(Trim(row["code"]))
                        && PartnerAsked(row, entry.partner)
       case Units => entry.UnitEntry? && "code" in row && entry.code == Upper(Trim(row["code"]))
                     && UnitAsked(row, db, entry.unit)
       case _ => entry.EquipmentEntry? && "tag" in row && entry.tag == Upper(Trim(row["tag"]))
                 && EquipmentAsked(row, db, resource.Starlinks?, entry.equipment)
  }

  /** The record is refused: for the first needed column that is empty, or for a parent that is not in its table. */
  ghost predicate Refused(resource: Resource, row: Record, db: Db, reason: Reason) {
    match reason
    case Missing(field) =>
      exists k :: 0 <= k < |Needed(resource)| && Needed(resource)[k] == field && Empty(row, field)
                  && forall j :: 0 <= j < k ==> !Empty(row, Needed(resource)[j])
    case UnknownPartner =>
      && resource.Units? && Complete(resource, row) && "partnerCode" in row
      && Upper(Trim(row["partnerCode"])) !in db.partners
    case UnknownUnit =>
      && (resource.Equipments? || resource.Starlinks?) && Complete(resource, row) && "unitCode" in row
      && Upper(Trim(row["unitCode"])) !in db.units
  }

  lemma UpperKeepsEmpty(s: string)
    ensures Upper(s) == "" <==> s == ""
    ensures Lower(s) == "" <==> s == ""
  {
    assert |Upper(s)| == |s| && |Lower(s)| == |s|;
  }

  lemma BlankFields(row: Record, column: string)
    ensures Empty(row, column) <==> Trim(Field(row, column)) == ""
    ensures Upper(Trim(Field(row, column))) == "" <==> Empty(row, column)
  {
    UpperKeepsEmpty(Trim(Field(row, column)));
  }

  lemma FlagMeans(row: Record)
    ensures Bool(Field(row, "isActive")) == SaysYes(row)
  {
    hide Trim, Lower;
    if "isActive" in row {
      UpperKeepsEmpty(Trim(row["isActive"]));
    } else {
      assert Trim("") == "" && Lower("") == "" by {
        TrimIdentity("");
        UpperKeepsEmpty("");
      }
    }
  }

  lemma UsualText(row: Record, column: string, usual: string)
    requires Trim(usual) == usual && Lower(usual) == usual
    ensures GivenOr(row, column, usual, Lower(Trim(Or(Field(row, column), usual))))
    ensures Given(row, column, OrNull(Field(row, column)))
  {
    hide Trim, Lower;
  }

  lemma PartnerPlanMeans(row: Record, db: Db)
    ensures match PlanPartner(row)
            case Write(entry) => Accepted(Partners, row, db, entry)
            case Refuse(reason) => Refused(Partners, row, db, reason)
  {
    BlankFields(row, "code");
    BlankFields(row, "name");
    FlagMeans(row);
    hide Trim, Upper, Lower, Bool, SaysYes;
    assert Needed(Partners)[0] == "code" && Needed(Partners)[1] == "name";
  }

  lemma UnitPlanMeans(row: Record, db: Db)
    ensures match PlanUnit(row, db.partners.Keys)
            case Write(entry) => Accepted(Units, row, db, entry)
            case Refuse(reason) => Refused(Units, row, db, reason)
  {
    BlankFields(row, "code");
    BlankFields(row, "name");
    BlankFields(row, "partnerCode");
    FlagMeans(row);
    UpperKeepsEmpty(Field(row, "state"));
    hide Trim, Upper, Lower, Bool, SaysYes;
    assert Needed(Units)[0] == "code" && Needed(Units)[1] == "name" && Needed(Units)[2] == "partnerCode";
    assert Given(row, "state", OrNull(Field(row, "state")));
  }

  lemma EquipmentPlanMeans(row: Record, db: Db, starlink: bool)
    ensures var resource := if starlink then Starlinks else Equipments;
            match PlanEquipment(row, db.units.Keys, starlink)
            case Write(entry) => Accepted(resource, row, db, entry)
            case Refuse(reason) => Refused(resource, row, db, reason)
  {
    BlankFields(row, "tag");
    BlankFields(row, "name");
    BlankFields(row, "unitCode");
    EquipmentFields(row, db, starlink);
    hide Trim, Upper, Lower, Bool, SaysYes, Or, GivenOr, Given, EquipmentAsked;
    var resource := if starlink then Starlinks else Equipments;
    assert Needed(resource)[0] == "tag" && Needed(resource)[1] == "name" && Needed(resource)[2] == "unitCode";
  }

  lemma EquipmentFields(row: Record, db: Db, starlink: bool)
    ensures PlanEquipment(row, db.units.Keys, starlink).Write? ==>
              EquipmentAsked(row, db, starlink, PlanEquipment(row, db.units.Keys, starlink).entry.equipment)
  {
    BlankFields(row, "name");
    BlankFields(row, "unitCode");
    FlagMeans(row);
    UsualWords();
    UsualText(row, "type", "asset");
    UsualText(row, "serialNumber", "");
    UsualText(row, "status", "active");
    hide Trim, Upper, Lower, Bool, SaysYes, Or, OrNull, GivenOr, Given;
  }

  lemma UsualWords()
    ensures Trim("asset") == "asset" && Lower("asset") == "asset"
    ensures Trim("active") == "active" && Lower("active") == "active"
    ensures Trim("") == "" && Lower("") == ""
  {
    TrimIdentity("");
    TrimIdentity("asset");
    TrimIdentity("active");
  }

  /** A record is planned exactly as it is asked, or refused for the first reason there is. */
  lemma PlanMeans(resource: Resource, row: Record, db: Db)
    ensures match Plan(resource, row, db)
            case Write(entry) => Accepted(resource, row, db, entry) && Belongs(resource, entry)
            case Refuse(reason) => Refused(resource, row, db, reason)
  {
    PlanBelongs(resource, row, db);
    PartnerPlanMeans(row, db);
    UnitPlanMeans(row, db);
    EquipmentPlanMeans(row, db, false);
    EquipmentPlanMeans(row, db, true);
    hide Accepted, Refused, PlanPartner, PlanUnit, PlanEquipment;
  }

  // ---------- the tables ----------

  /** The table holds the row under its code or tag. */
  ghost predicate Stands(db: Db, entry: Entry) {
    match entry
    case PartnerEntry(code, partner) => code in db.partners && db.partners[code] == partner
    case UnitEntry(code, unit) => code in db.units && db.units[code] == unit
    case EquipmentEntry(tag, equipment) => tag in db.equipments && db.equipments[tag] == equipment
  }

  ghost predicate SameKey(a: Entry, b: Entry) {
    || (a.PartnerEntry? && b.PartnerEntry? && a.code == b.code)
    || (a.UnitEntry? && b.UnitEntry? && a.code == b.code)
    || (a.EquipmentEntry? && b.EquipmentEntry? && a.tag == b.tag)
  }

  /** The row is the one asked for last under its key. */
  ghost predicate AskedLast(entries: seq<Entry>, entry: Entry) {
    exists k :: 0 <= k < |entries| && entries[k] == entry
                && forall j :: k < j < |entries| ==> !SameKey(entries[j], entry)
  }

  ghost predicate AskedAtAll(entries: seq<Entry>, entry: Entry) {
    exists k :: 0 <= k < |entries| && SameKey(entries[k], entry)
  }

  lemma PutStands(db: Db, put: Entry, entry: Entry)
    ensures Stands(Put(db, put), entry) <==> entry == put || (Stands(db, entry) && !SameKey(put, entry))
  {
  }

  lemma AskedTail(entries: seq<Entry>, entry: Entry)
    requires entries != []
    ensures AskedAtAll(entries, entry) <==> SameKey(entries[0], entry) || AskedAtAll(entries[1..], entry)
    ensures AskedLast(entries, entry)
        <==> AskedLast(entries[1..], entry) || (entries[0] == entry && !AskedAtAll(entries[1..], entry))
  {
    hide SameKey;
    var rest := entries[1..];
    assert forall k :: 0 < k < |entries| ==> entries[k] == rest[k - 1];
    if k :| 0 <= k < |rest| && SameKey(rest[k], entry) {
      assert SameKey(entries[k + 1], entry);
    }
    if k :| 0 <= k < |rest| && rest[k] == entry && forall j :: k < j < |rest| ==> !SameKey(rest[j], entry) {
      assert entries[k + 1] == entry;
    }
    if k :| 0 < k < |entries| && entries[k] == entry && forall j :: k < j < |entries| ==> !SameKey(entries[j], entry) {
      assert rest[k - 1] == entry;
      assert forall j :: k - 1 < j < |rest| ==> rest[j] == entries[j + 1];
    }
  }

  /** Of several rows under one key the last one stays; what nobody asked for stays as it was. */
  lemma {:induction false} WrittenInOrder(db: Db, entries: seq<Entry>, entry: Entry)
    ensures Stands(PutAll(db, entries), entry)
        <==> AskedLast(entries, entry) || (Stands(db, entry) && !AskedAtAll(entries, entry))
    decreases |entries|
  {
    if entries != [] {
      hide Stands, SameKey, Put, AskedLast, AskedAtAll;
      WrittenInOrder(Put(db, entries[0]), entries[1..], entry);
      PutStands(db, entries[0], entry);
      AskedTail(entries, entry);
      LastIsAsked(entries[1..], entry);
      if SameKey(entries[0], entry) && entry != entries[0] {
        assert !Stands(Put(db, entries[0]), entry);
      }
    }
  }

  lemma LastIsAsked(entries: seq<Entry>, entry: Entry)
    ensures AskedLast(entries, entry) ==> AskedAtAll(entries, entry)
    ensures SameKey(entry, entry)
  {
  }

  function Key(entry: Entry): string {
    match entry
    case PartnerEntry(code, _) => code
    case UnitEntry(code, _) => code
    case EquipmentEntry(tag, _) => tag
  }

  ghost function Keys(resource: Resource, db: Db): set<string> {
    match resource
    case Partners => db.partners.Keys
    case Units => db.units.Keys
    case _ => db.equipments.Keys
  }

  ghost function AskedKeys(entries: seq<Entry>): set<string> {
    set k | 0 <= k < |entries| :: Key(entries[k])
  }

  lemma PutKeys(resource: Resource, db: Db, entry: Entry)
    requires Belongs(resource, entry)
    ensures Keys(resource, Put(db, entry)) == Keys(resource, db) + {Key(entry)}
    ensures Has(db, entry) <==> Key(entry) in Keys(resource, db)
  {
  }

  lemma AskedKeysNext(entries: seq<Entry>)
    requires entries != []
    ensures AskedKeys(entries) == {Key(entries[0])} + AskedKeys(entries[1..])
  {
    hide Key;
    assert entries == [entries[0]] + entries[1..];
  }

  lemma OneMore(asked: set<string>, keys: set<string>, key: string)
    ensures |({key} + asked) - keys| == (if key in keys then 0 else 1) + |asked - (keys + {key})|
  {
    if key in keys {
      assert ({key} + asked) - keys == asked - (keys + {key});
    } else {
      assert ({key} + asked) - keys == {key} + (asked - (keys + {key}));
    }
  }

  /** As many rows are created as there are keys asked for that the table did not have. */
  lemma {:induction false} NewKeysCount(resource: Resource, db: Db, entries: seq<Entry>)
    requires forall e :: e in entries ==> Belongs(resource, e)
    ensures NewCount(db, entries) == |AskedKeys(entries) - Keys(resource, db)|
    decreases |entries|
  {
    if entries == [] {
      assert AskedKeys(entries) == {};
    } else {
      hide Belongs, Key, Keys, Put, Has, AskedKeys;
      NewKeysCount(resource, Put(db, entries[0]), entries[1..]);
      PutKeys(resource, db, entries[0]);
      AskedKeysNext(entries);
      OneMore(AskedKeys(entries[1..]), Keys(resource, db), Key(entries[0]));
    }
  }

  // ---------- the whole request ----------

  /** The first records are accepted, in their order, and ask for these rows. */
  ghost predicate AllAccepted(resource: Resource, rows: seq<Record>, db: Db, entries: seq<Entry>) {
    |entries| <= |rows| && forall k :: 0 <= k < |entries| ==> Accepted(resource, rows[k], db, entries[k])
  }

  ghost predicate Holds(db: Db, entries: seq<Entry>, after: Db) {
    forall entry :: Stands(after, entry) <==>
                      AskedLast(entries, entry) || (Stands(db, entry) && !AskedAtAll(entries, entry))
  }

  /** The report: a refused record is named by its line in the file, below the line of the headers. */
  ghost predicate Reported(resource: Resource, rows: seq<Record>, db: Db, entries: seq<Entry>, outcome: Outcome) {
    if |entries| < |rows| then outcome.Rejected? && outcome.line == |entries| + 2
        && Refused(resource, rows[|entries|], db, outcome.reason)
    else
      var added := |AskedKeys(entries) - Keys(resource, db)|;
      |entries| == |rows| && outcome.Done? && outcome.totalRows == |rows| && outcome.created == added
          && outcome.created + outcome.updated == |rows|
  }

  /** What is written is accepted, and what stops the writing is refused. */
  ghost predicate PlannedAs(resource: Resource, rows: seq<Record>, db: Db, plans: seq<Planned>) {
    && |plans| == |rows| && AllAccepted(resource, rows, db, Written(plans))
    && (forall e :: e in Written(plans) ==> Belongs(resource, e))
    && (|Written(plans)| < |rows| ==> Refused(resource, rows[|Written(plans)|], db, plans[|Written(plans)|].reason))
  }

  lemma PlannedNext(resource: Resource, row: Record, rows: seq<Record>, db: Db, plan: Planned, plans: seq<Planned>)
    requires PlannedAs(resource, rows, db, plans)
    requires if plan.Write? then Accepted(resource, row, db, plan.entry) && Belongs(resource, plan.entry)
             else Refused(resource, row, db, plan.reason)
    ensures PlannedAs(resource, [row] + rows, db, [plan] + plans)
  {
    hide Accepted, Refused, Belongs;
    assert ([plan] + plans)[1..] == plans;
  }

  lemma {:induction false} PlansMean(resource: Resource, rows: seq<Record>, db: Db)
    ensures PlannedAs(resource, rows, db, PlanAll(resource, rows, db))
  {
    hide Plan, Accepted, Refused, Belongs;
    if rows != [] {
      PlanMeans(resource, rows[0], db);
      PlansMean(resource, rows[1..], db);
      hide PlannedAs;
      PlannedNext(resource, rows[0], rows[1..], db, Plan(resource, rows[0], db), PlanAll(resource, rows[1..], db));
      assert rows == [rows[0]] + rows[1..];
    }
  }

  /** What the import of the records of a file comes to. */
  ghost predicate ImportedAs(resource: Resource, rows: seq<Record>, db: Db, after: Db, outcome: Outcome) {
    exists entries :: AllAccepted(resource, rows, db, entries) && Holds(db, entries, after)
                      && Reported(resource, rows, db, entries, outcome)
  }

  lemma ImportMeans(resource: Resource, rows: seq<Record>, db: Db)
    ensures var (after, outcome) := Import(resource, rows, 2, db, 0, 0);
            ImportedAs(resource, rows, db, after, outcome)
  {
    hide Import, Stands, AskedLast, AskedAtAll, AllAccepted, Refused, Belongs, PlanAll, AskedKeys, Keys;
    var plans := PlanAll(resource, rows, db);
    var entries := Written(plans);
    ImportIsReplay(resource, rows, 2, db, 0, 0);
    ReplayIsPutAll(plans, 2, db, 0, 0);
    PlansMean(resource, rows, db);
    NewKeysCount(resource, db, entries);
    forall entry
      ensures Stands(PutAll(db, entries), entry)
          <==> AskedLast(entries, entry) || (Stands(db, entry) && !AskedAtAll(entries, entry))
    {
      WrittenInOrder(db, entries, entry);
    }
    hide PutAll, Written, Replay;
    assert Holds(db, entries, PutAll(db, entries));
  }

  /**
   A request that names no resource is refused without a trace.  Every other one writes what its records ask for,
   up to the first one that is refused, and reports either that record or how many rows were new.
   */
  lemma ExecuteMeans(input: string, csv: string, db: Db)
    ensures var (after, outcome) := Execute(input, csv, db);
            if exists resource :: Names(input, resource)
            then exists resource :: Names(input, resource) && ImportedAs(resource, Parse(csv), db, after, outcome)
            else outcome.BadResource? && after == db
  {
    hide Parse, Import, ImportedAs, Trim, Lower;
    var found := NormalizeResource(input);
    if found.Some? {
      ImportMeans(found.value, Parse(csv), db);
      assert Names(input, found.value);
    }
  }
}
