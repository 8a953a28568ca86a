/**
 The import run of apps/api/scripts/import-legacy-catalog.ts: three loops that create missing
 partners, units and equipments, for real or as a dry run.

 Identifiers are arbitrary functions of the code they are created for.  A real write of a code that
 the table already holds violates its unique index and ends the run.
 */
module LegacyImport {
  import opened LegacyCodes
  import opened Options
  import opened Text

  datatype LegacyPartner = LegacyPartner(code: string, name: string, contactIds: seq<string>)

  datatype LegacyEquipment = LegacyEquipment(
    tag: string, name: string, kind: string, serialNumber: string, status: string,
    unitKey: string, unitCode: string, source: string, legacyId: string)

  datatype Bundle = Bundle(partners: seq<LegacyPartner>, units: seq<LegacyUnit>, equipments: seq<LegacyEquipment>)

  /** A table row: its identifier, its unique code or tag, and the rest. */
  datatype Row<D> = Row(id: string, code: string, data: D)

  datatype PartnerData = PartnerData(name: string)
  datatype UnitData = UnitData(name: string, city: Option<string>, state: Option<string>, partnerId: string)
  datatype EquipmentData = EquipmentData(
    name: string, kind: string, serialNumber: Option<string>, status: string, unitId: string)

  datatype Db = Db(partners: seq<Row<PartnerData>>, units: seq<Row<UnitData>>, equipments: seq<Row<EquipmentData>>)

  datatype Ref = Ref(id: string, code: string)

  datatype Stats = Stats(
    partnersCreated: nat, partnersSkipped: nat, unitsCreated: nat, unitsSkipped: nat,
    duplicateUnitCodesResolved: nat, unitsWithoutPartner: nat,
    equipmentsCreated: nat, equipmentsSkipped: nat, equipmentsWithoutUnit: nat, stockUnitCreated: bool)

  /** The variables of the script; `fallbackUsed` records that the fallback partner was asked for. */
  datatype State = State(
    db: Db,
    partnersByCode: map<string, Ref>, unitsByCode: map<string, Ref>, equipmentsByTag: map<string, Ref>,
    unitByLegacyKey: map<string, Ref>, fallback: Option<Ref>, stats: Stats, ok: bool, fallbackUsed: bool)

  /** A dry run invents identifiers and writes nothing; a real run gets them from the database. */
  datatype Mode = DryRun | Real(partnerId: string -> string, unitId: string -> string, equipmentId: string -> string)

  const NO_PARTNER := "LEGACY-SEM-PARCEIRO"
  const STOCK_UNIT := "LEGACY-ESTOQUE-STARLINK"
  const STARLINK_PARTNER := "STARLINK"

  function CleanText(value: string, default: string): string {
    Or(Trim(value), default)
  }

  // ---------- the maps read from the tables ----------

  function KeyOf<D>(row: Row<D>): string {
    CleanCode(row.code, row.id)
  }

  /** A `Map` keyed by the cleaned code; a later row of the same key wins. */
  function Index<D>(rows: seq<Row<D>>): map<string, Ref> {
    if rows == [] then map[]
    else
      var last := rows[|rows| - 1];
      Index(rows[..|rows| - 1])[KeyOf(last) := Ref(last.id, last.code)]
  }

  predicate HasCode<D>(rows: seq<Row<D>>, code: string) {
    exists i :: 0 <= i < |rows| && rows[i].code == code
  }

  // ---------- creating rows ----------

  function PartnerId(mode: Mode, code: string): string {
    match mode
    case DryRun => "dry-run-partner-" + code
    case Real(partnerId, _, _) => partnerId(code)
  }

  function UnitId(mode: Mode, code: string): string {
    match mode
    case DryRun => "dry-run-unit-" + code
    case Real(_, unitId, _) => unitId(code)
  }

  function EquipmentId(mode: Mode, tag: string): string {
    match mode
    case DryRun => "dry-run-equipment-" + tag
    case Real(_, _, equipmentId) => equipmentId(tag)
  }

  function InsertPartner(mode: Mode, db: Db, row: Row<PartnerData>): Db {
    if mode.DryRun? then db else db.(partners := db.partners + [row])
  }

  function InsertUnit(mode: Mode, db: Db, row: Row<UnitData>): Db {
    if mode.DryRun? then db else db.(units := db.units + [row])
  }

  function InsertEquipment(mode: Mode, db: Db, row: Row<EquipmentData>): Db {
    if mode.DryRun? then db else db.(equipments := db.equipments + [row])
  }

  function CreatePartner(mode: Mode, s: State, code: string, name: string, id: string): State {
    if mode.Real? && HasCode(s.db.partners, code) then s.(ok := false)
    else
      s.(partnersByCode := s.partnersByCode[code := Ref(id, code)],
         db := InsertPartner(mode, s.db, Row(id, code, PartnerData(name))),
         stats := s.stats.(partnersCreated := s.stats.partnersCreated + 1))
  }

  /** Creating a unit; the caller decides whether a legacy key is bound to it. */
  function CreateUnit(mode: Mode, s: State, code: string, data: UnitData): State {
    if mode.Real? && HasCode(s.db.units, code) then s.(ok := false)
    else
      var id := UnitId(mode, code);
      s.(unitsByCode := s.unitsByCode[code := Ref(id, code)],
         db := InsertUnit(mode, s.db, Row(id, code, data)),
         stats := s.stats.(unitsCreated := s.stats.unitsCreated + 1))
  }

  function CreateEquipment(mode: Mode, s: State, tag: string, data: EquipmentData): State {
    if mode.Real? && HasCode(s.db.equipments, tag) then s.(ok := false)
    else
      var id := EquipmentId(mode, tag);
      s.(equipmentsByTag := s.equipmentsByTag[tag := Ref(id, tag)],
         db := InsertEquipment(mode, s.db, Row(id, tag, data)),
         stats := s.stats.(equipmentsCreated := s.stats.equipmentsCreated + 1))
  }

  // ---------- partners ----------

  function EnsurePartner(mode: Mode, s: State, codeInput: string, nameInput: string): (t: State)
    ensures t.ok ==> CleanCode(codeInput, NO_PARTNER) in t.partnersByCode
  {
    var code := CleanCode(codeInput, NO_PARTNER);
    if code in s.partnersByCode then s
    else CreatePartner(mode, s, code, CleanText(nameInput, code), PartnerId(mode, code))
  }

  function PartnerCode(p: LegacyPartner): string {
    CleanCode(p.code, "LEGACY-PARTNER-" + if p.contactIds != [] && p.contactIds[0] != "" then p.contactIds[0]
              else "SEM-CODIGO")
  }

  function PartnerStep(mode: Mode, s: State, p: LegacyPartner): State {
    if !s.ok then s
    else if PartnerCode(p) in s.partnersByCode then
      s.(stats := s.stats.(partnersSkipped := s.stats.partnersSkipped + 1))
    else EnsurePartner(mode, s, PartnerCode(p), p.name)
  }

  function ImportPartners(mode: Mode, s: State, partners: seq<LegacyPartner>): State
    decreases |partners|
  {
    if partners == [] then s else ImportPartners(mode, PartnerStep(mode, s, partners[0]), partners[1..])
  }

  // ---------- units ----------

  function ReadFallback(s: State): State {
    s.(fallback := if NO_PARTNER in s.partnersByCode then Some(s.partnersByCode[NO_PARTNER]) else None)
  }

  function EnsureFallback(mode: Mode, s: State): (t: State)
    ensures t.ok ==> t.fallback.Some?
  {
    var asked := s.(fallbackUsed := true);
    if s.fallback.Some? then asked
    else
      var id := if mode.DryRun? then "dry-run-fallback-partner" else PartnerId(mode, NO_PARTNER);
      var created := CreatePartner(mode, asked, NO_PARTNER, "Legado sem parceiro identificado", id);
      if created.ok then created.(fallback := Some(Ref(id, NO_PARTNER))) else created
  }

  function UnitPartnerCode(u: LegacyUnit): string {
    CleanCode(u.partnerCode, NO_PARTNER)
  }

  function UnitCode(codes: map<string, string>, u: LegacyUnit): string {
    if u.key in codes && codes[u.key] != "" then codes[u.key] else BaseOf(u)
  }

  function BindKey(s: State, key: string, code: string): State
    requires code in s.unitsByCode
  {
    s.(unitByLegacyKey := s.unitByLegacyKey[key := s.unitsByCode[code]])
  }

  function AttachUnit(mode: Mode, s: State, u: LegacyUnit, code: string, partner: Ref): State {
    var counted := if partner.code == NO_PARTNER
                   then s.(stats := s.stats.(unitsWithoutPartner := s.stats.unitsWithoutPartner + 1)) else s;
    var data := UnitData(CleanText(u.name, code), OrNull(CleanText(u.city, "")), OrNull(CleanText(u.state, "")),
                         partner.id);
    var created := CreateUnit(mode, counted, code, data);
    if code in created.unitsByCode then BindKey(created, u.key, code) else created
  }

  function UnitStep(mode: Mode, codes: map<string, string>, s: State, u: LegacyUnit): State {
    var code := UnitCode(codes, u);
    if !s.ok then s
    else if code in s.unitsByCode then
      BindKey(s, u.key, code).(stats := s.stats.(unitsSkipped := s.stats.unitsSkipped + 1))
    else if UnitPartnerCode(u) in s.partnersByCode then
      AttachUnit(mode, s, u, code, s.partnersByCode[UnitPartnerCode(u)])
    else
      var ready := EnsureFallback(mode, s);
      if ready.ok then AttachUnit(mode, ready, u, code, ready.fallback.value) else ready
  }

  function ImportUnits(mode: Mode, codes: map<string, string>, s: State, units: seq<LegacyUnit>): State
    decreases |units|
  {
    if units == [] then s else ImportUnits(mode, codes, UnitStep(mode, codes, s, units[0]), units[1..])
  }

  // ---------- equipments ----------

  function EnsureStockUnit(mode: Mode, s: State): (t: State)
    ensures t.ok ==> STOCK_UNIT in t.unitsByCode
  {
    var ready := EnsurePartner(mode, s, STARLINK_PARTNER, "Starlink");
    if !ready.ok || STOCK_UNIT in ready.unitsByCode then ready
    else
      var partner := ready.partnersByCode[CleanCode(STARLINK_PARTNER, NO_PARTNER)];
      CreateUnit(mode, ready.(stats := ready.stats.(stockUnitCreated := true)), STOCK_UNIT,
                 UnitData("Estoque legado de Starlinks", None, None, partner.id))
  }

  function TagOf(e: LegacyEquipment): string {
    CleanCode(e.tag, "LEGACY-EQ-" + e.legacyId)
  }

  /** The unit found by key, else by cleaned code. */
  function UnitFor(s: State, e: LegacyEquipment): Option<Ref> {
    var unitCode := CleanCode(e.unitCode, "");
    if e.unitKey != "" && e.unitKey in s.unitByLegacyKey then Some(s.unitByLegacyKey[e.unitKey])
    else if unitCode != "" && unitCode in s.unitsByCode then Some(s.unitsByCode[unitCode])
    else None
  }

  function AttachEquipment(mode: Mode, s: State, e: LegacyEquipment, unit: Ref): State {
    CreateEquipment(mode, s, TagOf(e),
                    EquipmentData(CleanText(e.name, TagOf(e)), Lower(CleanText(e.kind, "legacy")),
                                  OrNull(CleanText(e.serialNumber, "")), Lower(CleanText(e.status, "active")), unit.id))
  }

  function EquipmentStep(mode: Mode, s: State, e: LegacyEquipment): State {
    if !s.ok then s
    else if TagOf(e) in s.equipmentsByTag then
      s.(stats := s.stats.(equipmentsSkipped := s.stats.equipmentsSkipped + 1))
    else
      match UnitFor(s, e)
      case Some(unit) => AttachEquipment(mode, s, e, unit)
      case None =>
        if e.source == "starlinks" then
          var ready := EnsureStockUnit(mode, s);
          if ready.ok then AttachEquipment(mode, ready, e, ready.unitsByCode[STOCK_UNIT]) else ready
        else
          s.(stats := s.stats.(equipmentsWithoutUnit := s.stats.equipmentsWithoutUnit + 1))
  }

  function ImportEquipments(mode: Mode, s: State, equipments: seq<LegacyEquipment>): State
    decreases |equipments|
  {
    if equipments == [] then s else ImportEquipments(mode, EquipmentStep(mode, s, equipments[0]), equipments[1..])
  }

  // ---------- the whole run ----------

  function ResolvedDuplicates(codes: map<string, string>, units: seq<LegacyUnit>): nat {
    if units == [] then 0
    else (if BaseOf(units[0]) != UnitCode(codes, units[0]) then 1 else 0) + ResolvedDuplicates(codes, units[1..])
  }

  function Begin(db: Db, units: seq<LegacyUnit>): State {
    State(db, Index(db.partners), Index(db.units), Index(db.equipments), map[], None,
          Stats(0, 0, 0, 0, ResolvedDuplicates(UnitCodes(units), units), 0, 0, 0, 0, false), true, false)
  }

  function ImportBundle(mode: Mode, db: Db, b: Bundle): State {
    var partnersDone := ImportPartners(mode, Begin(db, b.units), b.partners);
    var unitsDone := ImportUnits(mode, UnitCodes(b.units), ReadFallback(partnersDone), b.units);
    ImportEquipments(mode, unitsDone, b.equipments)
  }

  // ---------- a dry run reports what a real run does ----------

  /** Two maps agree on their keys and on the codes behind them; identifiers may differ. */
  ghost predicate SameCodes(a: map<string, Ref>, b: map<string, Ref>) {
    a.Keys == b.Keys && forall k :: k in a ==> a[k].code == b[k].code
  }

  /** The dry run and the real run stand at the same point. */
  ghost predicate Agree(d: State, r: State) {
    && d.ok && r.ok && d.stats == r.stats && d.fallbackUsed == r.fallbackUsed
    && SameCodes(d.partnersByCode, r.partnersByCode)
    && SameCodes(d.unitsByCode, r.unitsByCode)
    && SameCodes(d.equipmentsByTag, r.equipmentsByTag)
    && SameCodes(d.unitByLegacyKey, r.unitByLegacyKey)
    && (d.fallback.Some? <==> r.fallback.Some?)
    && (d.fallback.Some? ==> d.fallback.value.code == r.fallback.value.code)
  }

  lemma SameKey(a: map<string, Ref>, b: map<string, Ref>, k: string)
    requires SameCodes(a, b)
    ensures (k in a <==> k in b) && (k in a ==> a[k].code == b[k].code)
  {
  }

  lemma SameAfterPut(a: map<string, Ref>, b: map<string, Ref>, k: string, x: Ref, y: Ref)
    requires SameCodes(a, b) && x.code == y.code
    ensures SameCodes(a[k := x], b[k := y])
  {
  }

  lemma AgreeWithPartners(d: State, r: State, a: map<string, Ref>, b: map<string, Ref>, x: Db, y: Db, stats: Stats)
    requires Agree(d, r) && SameCodes(a, b)
    ensures Agree(d.(partnersByCode := a, db := x, stats := stats), r.(partnersByCode := b, db := y, stats := stats))
  {
    hide SameCodes;
  }

  lemma AgreeWithUnits(d: State, r: State, a: map<string, Ref>, b: map<string, Ref>, x: Db, y: Db, stats: Stats)
    requires Agree(d, r) && SameCodes(a, b)
    ensures Agree(d.(unitsByCode := a, db := x, stats := stats), r.(unitsByCode := b, db := y, stats := stats))
  {
    hide SameCodes;
  }

  lemma AgreeWithEquipments(d: State, r: State, a: map<string, Ref>, b: map<string, Ref>, x: Db, y: Db, stats: Stats)
    requires Agree(d, r) && SameCodes(a, b)
    ensures Agree(d.(equipmentsByTag := a, db := x, stats := stats), r.(equipmentsByTag := b, db := y, stats := stats))
  {
    hide SameCodes;
  }

  lemma CreatePartnerIs(mode: Mode, s: State, code: string, name: string, id: string)
    requires s.ok && CreatePartner(mode, s, code, name, id).ok
    ensures CreatePartner(mode, s, code, name, id)
         == s.(partnersByCode := s.partnersByCode[code := Ref(id, code)],
               db := InsertPartner(mode, s.db, Row(id, code, PartnerData(name))),
               stats := s.stats.(partnersCreated := s.stats.partnersCreated + 1))
  {
    hide HasCode, InsertPartner;
  }

  lemma CreateUnitIs(mode: Mode, s: State, code: string, data: UnitData)
    requires s.ok && CreateUnit(mode, s, code, data).ok
    ensures CreateUnit(mode, s, code, data)
         == s.(unitsByCode := s.unitsByCode[code := Ref(UnitId(mode, code), code)],
               db := InsertUnit(mode, s.db, Row(UnitId(mode, code), code, data)),
               stats := s.stats.(unitsCreated := s.stats.unitsCreated + 1))
  {
    hide HasCode, InsertUnit, UnitId;
  }

  lemma CreateEquipmentIs(mode: Mode, s: State, tag: string, data: EquipmentData)
    requires s.ok && CreateEquipment(mode, s, tag, data).ok
    ensures CreateEquipment(mode, s, tag, data)
         == s.(equipmentsByTag := s.equipmentsByTag[tag := Ref(EquipmentId(mode, tag), tag)],
               db := InsertEquipment(mode, s.db, Row(EquipmentId(mode, tag), tag, data)),
               stats := s.stats.(equipmentsCreated := s.stats.equipmentsCreated + 1))
  {
    hide HasCode, InsertEquipment, EquipmentId;
  }

  lemma CreateDryOk(s: State, code: string, name: string, id: string, unit: UnitData, equipment: EquipmentData)
    ensures CreatePartner(DryRun, s, code, name, id).ok == s.ok
    ensures CreateUnit(DryRun, s, code, unit).ok == s.ok
    ensures CreateEquipment(DryRun, s, code, equipment).ok == s.ok
  {
  }

  const NO_UNIT := UnitData("", None, None, "")
  const NO_EQUIPMENT := EquipmentData("", "", None, "", "")

  lemma CreatePartnerAgrees(live: Mode, d: State, r: State, code: string, name: string, dId: string, rId: string)
    requires Agree(d, r) && live.Real? && CreatePartner(live, r, code, name, rId).ok
    ensures Agree(CreatePartner(DryRun, d, code, name, dId), CreatePartner(live, r, code, name, rId))
  {
    hide SameCodes, InsertPartner, Agree, CreatePartner;
    AgreeBasics(d, r, r.stats);
    AgreeMaps(d, r);
    CreateDryOk(d, code, name, dId, NO_UNIT, NO_EQUIPMENT);
    CreatePartnerIs(DryRun, d, code, name, dId);
    CreatePartnerIs(live, r, code, name, rId);
    var dNew, rNew := CreatePartner(DryRun, d, code, name, dId), CreatePartner(live, r, code, name, rId);
    SameAfterPut(d.partnersByCode, r.partnersByCode, code, Ref(dId, code), Ref(rId, code));
    AgreeWithPartners(d, r, dNew.partnersByCode, rNew.partnersByCode, dNew.db, rNew.db, rNew.stats);
  }

  lemma AgreeMaps(d: State, r: State)
    requires Agree(d, r)
    ensures SameCodes(d.partnersByCode, r.partnersByCode) && SameCodes(d.unitsByCode, r.unitsByCode)
    ensures SameCodes(d.equipmentsByTag, r.equipmentsByTag) && SameCodes(d.unitByLegacyKey, r.unitByLegacyKey)
  {
    hide SameCodes;
  }

  lemma EnsurePartnerAgrees(live: Mode, d: State, r: State, code: string, name: string)
    requires Agree(d, r) && live.Real? && EnsurePartner(live, r, code, name).ok
    ensures Agree(EnsurePartner(DryRun, d, code, name), EnsurePartner(live, r, code, name))
  {
    hide CleanCode, CleanText, CreatePartner, SameCodes;
    var clean := CleanCode(code, NO_PARTNER);
    SameKey(d.partnersByCode, r.partnersByCode, clean);
    if clean !in r.partnersByCode {
      CreatePartnerAgrees(live, d, r, clean, CleanText(name, clean), PartnerId(DryRun, clean), PartnerId(live, clean));
    }
  }

  lemma PartnerStepAgrees(live: Mode, d: State, r: State, p: LegacyPartner)
    requires Agree(d, r) && live.Real? && PartnerStep(live, r, p).ok
    ensures Agree(PartnerStep(DryRun, d, p), PartnerStep(live, r, p))
  {
    hide PartnerCode, EnsurePartner, SameCodes;
    SameKey(d.partnersByCode, r.partnersByCode, PartnerCode(p));
    if PartnerCode(p) !in r.partnersByCode {
      EnsurePartnerAgrees(live, d, r, PartnerCode(p), p.name);
    }
  }

  lemma EnsureFallbackAgrees(live: Mode, d: State, r: State)
    requires Agree(d, r) && live.Real? && EnsureFallback(live, r).ok
    ensures Agree(EnsureFallback(DryRun, d), EnsureFallback(live, r))
    ensures EnsureFallback(DryRun, d).fallback.Some? && EnsureFallback(live, r).fallback.Some?
    ensures EnsureFallback(DryRun, d).fallback.value.code == EnsureFallback(live, r).fallback.value.code
  {
    hide CreatePartner, SameCodes;
    var dAsked, rAsked := d.(fallbackUsed := true), r.(fallbackUsed := true);
    assert Agree(dAsked, rAsked);
    if r.fallback.None? {
      CreatePartnerAgrees(live, dAsked, rAsked, NO_PARTNER, "Legado sem parceiro identificado",
                          "dry-run-fallback-partner", PartnerId(live, NO_PARTNER));
    }
  }

  lemma CreateUnitAgrees(live: Mode, d: State, r: State, code: string, dData: UnitData, rData: UnitData)
    requires Agree(d, r) && live.Real? && CreateUnit(live, r, code, rData).ok
    ensures Agree(CreateUnit(DryRun, d, code, dData), CreateUnit(live, r, code, rData))
    ensures code in CreateUnit(DryRun, d, code, dData).unitsByCode
        && code in CreateUnit(live, r, code, rData).unitsByCode
  {
    hide SameCodes, InsertUnit, Agree, CreateUnit, UnitId;
    AgreeBasics(d, r, r.stats);
    AgreeMaps(d, r);
    CreateDryOk(d, code, "", "", dData, NO_EQUIPMENT);
    CreateUnitIs(DryRun, d, code, dData);
    CreateUnitIs(live, r, code, rData);
    var dNew, rNew := CreateUnit(DryRun, d, code, dData), CreateUnit(live, r, code, rData);
    SameAfterPut(d.unitsByCode, r.unitsByCode, code, Ref(UnitId(DryRun, code), code), Ref(UnitId(live, code), code));
    AgreeWithUnits(d, r, dNew.unitsByCode, rNew.unitsByCode, dNew.db, rNew.db, rNew.stats);
  }

  lemma BindKeyAgrees(d: State, r: State, key: string, code: string)
    requires Agree(d, r) && code in d.unitsByCode && code in r.unitsByCode
    ensures Agree(BindKey(d, key, code), BindKey(r, key, code))
  {
    hide SameCodes;
    SameKey(d.unitsByCode, r.unitsByCode, code);
    SameAfterPut(d.unitByLegacyKey, r.unitByLegacyKey, key, d.unitsByCode[code], r.unitsByCode[code]);
  }

  lemma AttachUnitAgrees(live: Mode, d: State, r: State, u: LegacyUnit, code: string, dp: Ref, rp: Ref)
    requires Agree(d, r) && live.Real? && dp.code == rp.code && AttachUnit(live, r, u, code, rp).ok
    ensures Agree(AttachUnit(DryRun, d, u, code, dp), AttachUnit(live, r, u, code, rp))
  {
    hide SameCodes, CleanText, OrNull, CreateUnit;
    var lacks := rp.code == NO_PARTNER;
    var dc := if lacks then d.(stats := d.stats.(unitsWithoutPartner := d.stats.unitsWithoutPartner + 1)) else d;
    var rc := if lacks then r.(stats := r.stats.(unitsWithoutPartner := r.stats.unitsWithoutPartner + 1)) else r;
    assert Agree(dc, rc);
    var city, state := OrNull(CleanText(u.city, "")), OrNull(CleanText(u.state, ""));
    var dData := UnitData(CleanText(u.name, code), city, state, dp.id);
    var rData := UnitData(CleanText(u.name, code), city, state, rp.id);
    CreateUnitAgrees(live, dc, rc, code, dData, rData);
    BindKeyAgrees(CreateUnit(DryRun, dc, code, dData), CreateUnit(live, rc, code, rData), u.key, code);
  }

  lemma UnitStepAgrees(live: Mode, codes: map<string, string>, d: State, r: State, u: LegacyUnit)
    requires Agree(d, r) && live.Real? && UnitStep(live, codes, r, u).ok
    ensures Agree(UnitStep(DryRun, codes, d, u), UnitStep(live, codes, r, u))
  {
    hide UnitCode, UnitPartnerCode, EnsureFallback, AttachUnit, SameCodes, BindKey;
    var code, partnerCode := UnitCode(codes, u), UnitPartnerCode(u);
    SameKey(d.unitsByCode, r.unitsByCode, code);
    SameKey(d.partnersByCode, r.partnersByCode, partnerCode);
    if code in r.unitsByCode {
      BindKeyAgrees(d, r, u.key, code);
      BindKeyRest(d, u.key, code);
      BindKeyRest(r, u.key, code);
    } else if partnerCode in r.partnersByCode {
      AttachUnitAgrees(live, d, r, u, code, d.partnersByCode[partnerCode], r.partnersByCode[partnerCode]);
    } else {
      EnsureFallbackAgrees(live, d, r);
      var dReady, rReady := EnsureFallback(DryRun, d), EnsureFallback(live, r);
      AttachUnitAgrees(live, dReady, rReady, u, code, dReady.fallback.value, rReady.fallback.value);
    }
  }

  lemma BindKeyRest(s: State, key: string, code: string)
    requires code in s.unitsByCode
    ensures BindKey(s, key, code) == s.(unitByLegacyKey := BindKey(s, key, code).unitByLegacyKey)
  {
  }

  lemma EnsureStockUnitAgrees(live: Mode, d: State, r: State)
    requires Agree(d, r) && live.Real? && EnsureStockUnit(live, r).ok
    ensures Agree(EnsureStockUnit(DryRun, d), EnsureStockUnit(live, r))
    ensures STOCK_UNIT in EnsureStockUnit(DryRun, d).unitsByCode
  {
    hide EnsurePartner, CreateUnit, CleanCode, SameCodes;
    EnsurePartnerAgrees(live, d, r, STARLINK_PARTNER, "Starlink");
    var dReady := EnsurePartner(DryRun, d, STARLINK_PARTNER, "Starlink");
    var rReady := EnsurePartner(live, r, STARLINK_PARTNER, "Starlink");
    SameKey(dReady.unitsByCode, rReady.unitsByCode, STOCK_UNIT);
    if STOCK_UNIT !in rReady.unitsByCode {
      var partnerCode := CleanCode(STARLINK_PARTNER, NO_PARTNER);
      var dStock := dReady.(stats := dReady.stats.(stockUnitCreated := true));
      var rStock := rReady.(stats := rReady.stats.(stockUnitCreated := true));
      assert Agree(dStock, rStock);
      CreateUnitAgrees(live, dStock, rStock, STOCK_UNIT,
                       UnitData("Estoque legado de Starlinks", None, None, dReady.partnersByCode[partnerCode].id),
                       UnitData("Estoque legado de Starlinks", None, None, rReady.partnersByCode[partnerCode].id));
    }
  }

  lemma CreateEquipmentAgrees(live: Mode, d: State, r: State, tag: string, dData: EquipmentData, rData: EquipmentData)
    requires Agree(d, r) && live.Real? && CreateEquipment(live, r, tag, rData).ok
    ensures Agree(CreateEquipment(DryRun, d, tag, dData), CreateEquipment(live, r, tag, rData))
  {
    hide SameCodes, InsertEquipment, Agree, CreateEquipment, EquipmentId;
    AgreeBasics(d, r, r.stats);
    AgreeMaps(d, r);
    CreateDryOk(d, tag, "", "", NO_UNIT, dData);
    CreateEquipmentIs(DryRun, d, tag, dData);
    CreateEquipmentIs(live, r, tag, rData);
    var dNew, rNew := CreateEquipment(DryRun, d, tag, dData), CreateEquipment(live, r, tag, rData);
    SameAfterPut(d.equipmentsByTag, r.equipmentsByTag, tag, Ref(EquipmentId(DryRun, tag), tag),
                 Ref(EquipmentId(live, tag), tag));
    AgreeWithEquipments(d, r, dNew.equipmentsByTag, rNew.equipmentsByTag, dNew.db, rNew.db, rNew.stats);
  }

  lemma AttachEquipmentAgrees(live: Mode, d: State, r: State, e: LegacyEquipment, du: Ref, ru: Ref)
    requires Agree(d, r) && live.Real? && AttachEquipment(live, r, e, ru).ok
    ensures Agree(AttachEquipment(DryRun, d, e, du), AttachEquipment(live, r, e, ru))
  {
    hide TagOf, CleanText, OrNull, Lower, Agree, CreateEquipment;
    var data := EquipmentData(CleanText(e.name, TagOf(e)), Lower(CleanText(e.kind, "legacy")),
                              OrNull(CleanText(e.serialNumber, "")), Lower(CleanText(e.status, "active")), du.id);
    CreateEquipmentAgrees(live, d, r, TagOf(e), data, data.(unitId := ru.id));
  }

  lemma UnitForAgrees(d: State, r: State, e: LegacyEquipment)
    requires Agree(d, r)
    ensures UnitFor(d, e).Some? <==> UnitFor(r, e).Some?
  {
    hide CleanCode, SameCodes;
    SameKey(d.unitByLegacyKey, r.unitByLegacyKey, e.unitKey);
    SameKey(d.unitsByCode, r.unitsByCode, CleanCode(e.unitCode, ""));
  }

  lemma AgreeBasics(d: State, r: State, stats: Stats)
    requires Agree(d, r)
    ensures d.ok && r.ok && d.stats == r.stats && Agree(d.(stats := stats), r.(stats := stats))
  {
    hide SameCodes;
  }

  lemma AgreeTags(d: State, r: State, tag: string)
    requires Agree(d, r)
    ensures tag in d.equipmentsByTag <==> tag in r.equipmentsByTag
  {
    hide SameCodes;
    SameKey(d.equipmentsByTag, r.equipmentsByTag, tag);
  }

  lemma EquipmentStepAgrees(live: Mode, d: State, r: State, e: LegacyEquipment)
    requires Agree(d, r) && live.Real? && EquipmentStep(live, r, e).ok
    ensures Agree(EquipmentStep(DryRun, d, e), EquipmentStep(live, r, e))
  {
    hide TagOf, EnsureStockUnit, AttachEquipment, UnitFor, Agree;
    AgreeTags(d, r, TagOf(e));
    UnitForAgrees(d, r, e);
    AgreeBasics(d, r, r.stats);
    if TagOf(e) in r.equipmentsByTag {
      AgreeBasics(d, r, r.stats.(equipmentsSkipped := r.stats.equipmentsSkipped + 1));
    } else if UnitFor(r, e).Some? {
      AttachEquipmentAgrees(live, d, r, e, UnitFor(d, e).value, UnitFor(r, e).value);
    } else if e.source == "starlinks" {
      EnsureStockUnitAgrees(live, d, r);
      var dReady, rReady := EnsureStockUnit(DryRun, d), EnsureStockUnit(live, r);
      AgreeBasics(dReady, rReady, r.stats);
      AttachEquipmentAgrees(live, dReady, rReady, e, dReady.unitsByCode[STOCK_UNIT], rReady.unitsByCode[STOCK_UNIT]);
    } else {
      AgreeBasics(d, r, r.stats.(equipmentsWithoutUnit := r.stats.equipmentsWithoutUnit + 1));
    }
  }

  /** Once a write has failed nothing more happens. */
  lemma {:induction false} FailedPartners(mode: Mode, s: State, ps: seq<LegacyPartner>)
    ensures !s.ok ==> ImportPartners(mode, s, ps) == s
    decreases |ps|
  {
    hide EnsurePartner, PartnerCode;
    if ps != [] {
      FailedPartners(mode, PartnerStep(mode, s, ps[0]), ps[1..]);
    }
  }

  lemma {:induction false} FailedUnits(mode: Mode, codes: map<string, string>, s: State, us: seq<LegacyUnit>)
    ensures !s.ok ==> ImportUnits(mode, codes, s, us) == s
    decreases |us|
  {
    hide AttachUnit, EnsureFallback, UnitCode, UnitPartnerCode, BindKey;
    if us != [] {
      FailedUnits(mode, codes, UnitStep(mode, codes, s, us[0]), us[1..]);
    }
  }

  lemma {:induction false} FailedEquipments(mode: Mode, s: State, es: seq<LegacyEquipment>)
    ensures !s.ok ==> ImportEquipments(mode, s, es) == s
    decreases |es|
  {
    hide AttachEquipment, EnsureStockUnit, TagOf, UnitFor;
    if es != [] {
      FailedEquipments(mode, EquipmentStep(mode, s, es[0]), es[1..]);
    }
  }

  lemma {:induction false} ImportPartnersAgrees(live: Mode, d: State, r: State, ps: seq<LegacyPartner>)
    requires Agree(d, r) && live.Real? && ImportPartners(live, r, ps).ok
    ensures Agree(ImportPartners(DryRun, d, ps), ImportPartners(live, r, ps))
    decreases |ps|
  {
    hide PartnerStep, Agree;
    if ps != [] {
      FailedPartners(live, PartnerStep(live, r, ps[0]), ps[1..]);
      PartnerStepAgrees(live, d, r, ps[0]);
      ImportPartnersAgrees(live, PartnerStep(DryRun, d, ps[0]), PartnerStep(live, r, ps[0]), ps[1..]);
    }
  }

  lemma {:induction false} ImportUnitsAgrees(live: Mode, codes: map<string, string>, d: State, r: State,
                                             us: seq<LegacyUnit>)
    requires Agree(d, r) && live.Real? && ImportUnits(live, codes, r, us).ok
    ensures Agree(ImportUnits(DryRun, codes, d, us), ImportUnits(live, codes, r, us))
    decreases |us|
  {
    hide UnitStep, Agree;
    if us != [] {
      FailedUnits(live, codes, UnitStep(live, codes, r, us[0]), us[1..]);
      UnitStepAgrees(live, codes, d, r, us[0]);
      ImportUnitsAgrees(live, codes, UnitStep(DryRun, codes, d, us[0]), UnitStep(live, codes, r, us[0]), us[1..]);
    }
  }

  lemma {:induction false} ImportEquipmentsAgrees(live: Mode, d: State, r: State, es: seq<LegacyEquipment>)
    requires Agree(d, r) && live.Real? && ImportEquipments(live, r, es).ok
    ensures Agree(ImportEquipments(DryRun, d, es), ImportEquipments(live, r, es))
    decreases |es|
  {
    hide EquipmentStep, Agree;
    if es != [] {
      FailedEquipments(live, EquipmentStep(live, r, es[0]), es[1..]);
      EquipmentStepAgrees(live, d, r, es[0]);
      ImportEquipmentsAgrees(live, EquipmentStep(DryRun, d, es[0]), EquipmentStep(live, r, es[0]), es[1..]);
    }
  }

  lemma ReadFallbackAgrees(d: State, r: State)
    requires Agree(d, r)
    ensures Agree(ReadFallback(d), ReadFallback(r))
  {
    hide SameCodes;
    SameKey(d.partnersByCode, r.partnersByCode, NO_PARTNER);
  }

  /** For every bundle and database, a dry run reports exactly what a real run reports if its writes succeed. */
  lemma DryRunAgrees(live: Mode, db: Db, b: Bundle)
    requires live.Real? && ImportBundle(live, db, b).ok
    ensures ImportBundle(DryRun, db, b).stats == ImportBundle(live, db, b).stats
    ensures ImportBundle(DryRun, db, b).fallbackUsed == ImportBundle(live, db, b).fallbackUsed
  {
    var s, codes := Begin(db, b.units), UnitCodes(b.units);
    var rPartners := ImportPartners(live, s, b.partners);
    var rUnits := ImportUnits(live, codes, ReadFallback(rPartners), b.units);
    hide ImportPartners, ImportUnits, ImportEquipments, UnitCodes, Begin, Agree;
    FailedEquipments(live, rUnits, b.equipments);
    FailedUnits(live, codes, ReadFallback(rPartners), b.units);
    BeginAgrees(db, b.units);
    ImportPartnersAgrees(live, s, s, b.partners);
    var dPartners := ImportPartners(DryRun, s, b.partners);
    ReadFallbackAgrees(dPartners, rPartners);
    hide ReadFallback;
    ImportUnitsAgrees(live, codes, ReadFallback(dPartners), ReadFallback(rPartners), b.units);
    var dUnits := ImportUnits(DryRun, codes, ReadFallback(dPartners), b.units);
    ImportEquipmentsAgrees(live, dUnits, rUnits, b.equipments);
    hide SameCodes;
    assert Agree(ImportBundle(DryRun, db, b), ImportBundle(live, db, b));
    AgreeStats(ImportBundle(DryRun, db, b), ImportBundle(live, db, b));
  }

  lemma BeginAgrees(db: Db, units: seq<LegacyUnit>)
    ensures Agree(Begin(db, units), Begin(db, units))
  {
    hide Index, UnitCodes, ResolvedDuplicates;
  }

  lemma AgreeStats(d: State, r: State)
    requires Agree(d, r)
    ensures d.stats == r.stats && d.fallbackUsed == r.fallbackUsed
  {
  }
}
