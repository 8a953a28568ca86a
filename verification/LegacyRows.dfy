/**
 What the import of apps/api/scripts/import-legacy-catalog.ts writes, row by row and field by field, said of
 the bundle and the tables alone.
 */
module LegacyRows {
  import opened LegacyCodes
  import opened LegacyImport
  import opened LegacyReport
  import opened LegacyRerun
  import opened Options
  import opened Text

  // ---------- rows and the codes they stand under ----------

  /** A row stands under its own code and under what cleaning makes of it. */
  ghost predicate Under<D>(row: Row<D>, code: string) {
    row.code == code || KeyOf(row) == code
  }

  /** The identifier is that of a row under the code. */
  ghost predicate Refers<D>(rows: seq<Row<D>>, id: string, code: string) {
    exists i :: 0 <= i < |rows| && rows[i].id == id && Under(rows[i], code)
  }

  ghost predicate AllRefer<D>(known: map<string, Ref>, rows: seq<Row<D>>) {
    forall k :: k in known ==> Refers(rows, known[k].id, k)
  }

  lemma RefersLater<D>(rows: seq<Row<D>>, more: seq<Row<D>>, id: string, code: string)
    requires Refers(rows, id, code)
    ensures Refers(rows + more, id, code)
  {
    hide Under;
    var i :| 0 <= i < |rows| && rows[i].id == id && Under(rows[i], code);
    assert (rows + more)[i] == rows[i];
  }

  lemma RefersNew<D>(rows: seq<Row<D>>, row: Row<D>)
    ensures Refers(rows + [row], row.id, row.code)
  {
    hide KeyOf;
    assert (rows + [row])[|rows|] == row;
  }

  lemma AllReferLater<D>(known: map<string, Ref>, rows: seq<Row<D>>, row: Row<D>)
    requires AllRefer(known, rows)
    ensures AllRefer(known, rows + [row])
    ensures AllRefer(known[row.code := Ref(row.id, row.code)], rows + [row])
  {
    hide Refers;
    forall k | k in known ensures Refers(rows + [row], known[k].id, k) {
      RefersLater(rows, [row], known[k].id, k);
    }
    RefersNew(rows, row);
  }

  lemma {:induction false} IndexRefers<D>(rows: seq<Row<D>>)
    ensures AllRefer(Index(rows), rows)
  {
    hide KeyOf;
    if rows != [] {
      var init, last := rows[..|rows| - 1], rows[|rows| - 1];
      IndexRefers(init);
      assert rows == init + [last];
      LastRefers(init, last);
    }
  }

  lemma LastRefers<D>(rows: seq<Row<D>>, row: Row<D>)
    requires AllRefer(Index(rows), rows)
    ensures AllRefer(Index(rows)[KeyOf(row) := Ref(row.id, row.code)], rows + [row])
  {
    hide Refers, KeyOf;
    forall k | k in Index(rows) ensures Refers(rows + [row], Index(rows)[k].id, k) {
      RefersLater(rows, [row], Index(rows)[k].id, k);
    }
    OwnKey(rows, row);
  }

  lemma OwnKey<D>(rows: seq<Row<D>>, row: Row<D>)
    ensures Refers(rows + [row], row.id, KeyOf(row))
  {
    hide KeyOf;
    assert (rows + [row])[|rows|] == row;
  }

  // ---------- what rows hold ----------

  /** The text as it is meant: trimmed, or the usual one if nothing is left. */
  ghost predicate Meant(raw: string, usual: string, text: string) {
    if Trim(raw) == "" then text == usual else text == Trim(raw)
  }

  ghost predicate MeantOrNone(raw: string, text: Option<string>) {
    if Trim(raw) == "" then text.None? else text == Some(Trim(raw))
  }

  /** The code a partner of the bundle is looked up and created under. */
  function CodeOf(p: LegacyPartner): string {
    CleanCode(PartnerCode(p), NO_PARTNER)
  }

  /** A partner that is in the table before the units come: it was there, or the bundle has it. */
  ghost predicate PartnerThere(db: Db, b: Bundle, code: string) {
    || code in Index(db.partners)
    || exists i :: 0 <= i < |b.partners| && CodeOf(b.partners[i]) == code
                   && PartnerCode(b.partners[i]) !in Index(db.partners)
  }

  /** A partner of the bundle, the fallback partner, or the partner of the stock. */
  ghost predicate PartnerRowAs(live: Mode, b: Bundle, row: Row<PartnerData>) {
    && live.Real? && row.id == live.partnerId(row.code)
    && ((row.code == "LEGACY-SEM-PARCEIRO" && row.data.name == "Legado sem parceiro identificado")
        || (row.code == "STARLINK" && row.data.name == "Starlink")
        || exists i :: 0 <= i < |b.partners| && row.code == CodeOf(b.partners[i])
                       && Meant(b.partners[i].name, row.code, row.data.name))
  }

  /** The partner a unit is stored with: the one under its cleaned partner code, or the fallback when there is none. */
  ghost predicate PartnerOf(db: Db, b: Bundle, partners: seq<Row<PartnerData>>, u: LegacyUnit, id: string) {
    var code := CleanCode(u.partnerCode, "LEGACY-SEM-PARCEIRO");
    if PartnerThere(db, b, code) then Refers(partners, id, code) else Refers(partners, id, "LEGACY-SEM-PARCEIRO")
  }

  /** A unit of the bundle under the code it is given, with its name, city, state and partner. */
  ghost predicate FromUnit(db: Db, b: Bundle, partners: seq<Row<PartnerData>>, u: LegacyUnit, row: Row<UnitData>) {
    && row.code == UnitCode(UnitCodes(b.units), u)
    && Meant(u.name, row.code, row.data.name) && MeantOrNone(u.city, row.data.city)
    && MeantOrNone(u.state, row.data.state) && PartnerOf(db, b, partners, u, row.data.partnerId)
  }

  ghost predicate StockRow(partners: seq<Row<PartnerData>>, row: Row<UnitData>) {
    && row.code == "LEGACY-ESTOQUE-STARLINK" && row.data.name == "Estoque legado de Starlinks"
    && row.data.city.None? && row.data.state.None? && Refers(partners, row.data.partnerId, "STARLINK")
  }

  ghost predicate UnitRowAs(live: Mode, db: Db, b: Bundle, partners: seq<Row<PartnerData>>, row: Row<UnitData>) {
    && live.Real? && row.id == live.unitId(row.code)
    && (StockRow(partners, row) || exists i :: 0 <= i < |b.units| && FromUnit(db, b, partners, b.units[i], row))
  }

  ghost predicate HasKey(b: Bundle, key: string) {
    exists i :: 0 <= i < |b.units| && b.units[i].key == key
  }

  /** A unit that is in the table before the equipments come. */
  ghost predicate UnitThere(db: Db, b: Bundle, code: string) {
    code in Index(db.units) || exists i :: 0 <= i < |b.units| && UnitCode(UnitCodes(b.units), b.units[i]) == code
  }

  /** The unit an equipment is attached to: the bundle's of its key, else the one of its code, else the stock. */
  ghost predicate HomeOf(db: Db, b: Bundle, units: seq<Row<UnitData>>, e: LegacyEquipment, id: string) {
    var code := CleanCode(e.unitCode, "");
    if e.unitKey != "" && HasKey(b, e.unitKey) then
      exists i :: 0 <= i < |b.units| && b.units[i].key == e.unitKey
                  && Refers(units, id, UnitCode(UnitCodes(b.units), b.units[i]))
    else if code != "" && UnitThere(db, b, code) then Refers(units, id, code)
    else Refers(units, id, "LEGACY-ESTOQUE-STARLINK") && (e.source == "starlinks" || code == "LEGACY-ESTOQUE-STARLINK")
  }

  /** An equipment of the bundle under its cleaned tag, with its name, kind, serial number, status and unit. */
  ghost predicate EquipmentRowAs(live: Mode, db: Db, b: Bundle, units: seq<Row<UnitData>>, row: Row<EquipmentData>) {
    && live.Real? && row.id == live.equipmentId(row.code)
    && exists i :: 0 <= i < |b.equipments| && FromEquipment(db, b, units, b.equipments[i], row)
  }

  ghost predicate FromEquipment(db: Db, b: Bundle, units: seq<Row<UnitData>>, e: LegacyEquipment,
                                row: Row<EquipmentData>) {
    && row.code == CleanCode(e.tag, "LEGACY-EQ-" + e.legacyId)
    && Meant(e.name, row.code, row.data.name) && MeantOrNone(e.serialNumber, row.data.serialNumber)
    && (exists kind :: Meant(e.kind, "legacy", kind) && row.data.kind == Lower(kind))
    && (exists status :: Meant(e.status, "active", status) && row.data.status == Lower(status))
    && HomeOf(db, b, units, e, row.data.unitId)
  }

  lemma CleanTextMeans(raw: string, usual: string)
    ensures Meant(raw, usual, CleanText(raw, usual)) && MeantOrNone(raw, OrNull(CleanText(raw, "")))
  {
    hide Trim;
  }

  // ---------- rows that are there stay ----------

  ghost predicate PartnersAs(live: Mode, db: Db, b: Bundle, rows: seq<Row<PartnerData>>) {
    db.partners <= rows && forall j :: |db.partners| <= j < |rows| ==> PartnerRowAs(live, b, rows[j])
  }

  ghost predicate UnitsAs(live: Mode, db: Db, b: Bundle, partners: seq<Row<PartnerData>>, rows: seq<Row<UnitData>>) {
    db.units <= rows && forall j :: |db.units| <= j < |rows| ==> UnitRowAs(live, db, b, partners, rows[j])
  }

  ghost predicate EquipmentsAs(live: Mode, db: Db, b: Bundle, units: seq<Row<UnitData>>,
                               rows: seq<Row<EquipmentData>>) {
    db.equipments <= rows && forall j :: |db.equipments| <= j < |rows| ==> EquipmentRowAs(live, db, b, units, rows[j])
  }

  lemma UnitRowLater(live: Mode, db: Db, b: Bundle, partners: seq<Row<PartnerData>>, more: seq<Row<PartnerData>>,
                     row: Row<UnitData>)
    requires UnitRowAs(live, db, b, partners, row)
    ensures UnitRowAs(live, db, b, partners + more, row)
  {
    hide Refers, Meant, MeantOrNone, UnitCode, UnitCodes, PartnerThere, CleanCode;
    if StockRow(partners, row) {
      RefersLater(partners, more, row.data.partnerId, "STARLINK");
    } else {
      var i :| 0 <= i < |b.units| && FromUnit(db, b, partners, b.units[i], row);
      var code := CleanCode(b.units[i].partnerCode, "LEGACY-SEM-PARCEIRO");
      RefersLater(partners, more, row.data.partnerId,
                  if PartnerThere(db, b, code) then code else "LEGACY-SEM-PARCEIRO");
      assert FromUnit(db, b, partners + more, b.units[i], row);
    }
  }

  lemma UnitsLater(live: Mode, db: Db, b: Bundle, partners: seq<Row<PartnerData>>, more: seq<Row<PartnerData>>,
                   rows: seq<Row<UnitData>>)
    requires UnitsAs(live, db, b, partners, rows)
    ensures UnitsAs(live, db, b, partners + more, rows)
  {
    hide UnitRowAs;
    forall j | |db.units| <= j < |rows| ensures UnitRowAs(live, db, b, partners + more, rows[j]) {
      UnitRowLater(live, db, b, partners, more, rows[j]);
    }
  }

  lemma HomeLater(db: Db, b: Bundle, units: seq<Row<UnitData>>, more: seq<Row<UnitData>>, e: LegacyEquipment,
                  id: string)
    requires HomeOf(db, b, units, e, id)
    ensures HomeOf(db, b, units + more, e, id)
  {
    hide Refers, UnitCode, UnitCodes, UnitThere, CleanCode, HasKey;
    var code := CleanCode(e.unitCode, "");
    if e.unitKey != "" && HasKey(b, e.unitKey) {
      var i :| 0 <= i < |b.units| && b.units[i].key == e.unitKey
          && Refers(units, id, UnitCode(UnitCodes(b.units), b.units[i]));
      RefersLater(units, more, id, UnitCode(UnitCodes(b.units), b.units[i]));
    } else {
      RefersLater(units, more, id, if code != "" && UnitThere(db, b, code) then code else "LEGACY-ESTOQUE-STARLINK");
    }
  }

  lemma EquipmentsLater(live: Mode, db: Db, b: Bundle, units: seq<Row<UnitData>>, more: seq<Row<UnitData>>,
                        rows: seq<Row<EquipmentData>>)
    requires EquipmentsAs(live, db, b, units, rows)
    ensures EquipmentsAs(live, db, b, units + more, rows)
  {
    hide HomeOf, Meant, MeantOrNone, CleanCode;
    forall j | |db.equipments| <= j < |rows| ensures EquipmentRowAs(live, db, b, units + more, rows[j]) {
      assert EquipmentRowAs(live, db, b, units, rows[j]);
      var i :| 0 <= i < |b.equipments| && FromEquipment(db, b, units, b.equipments[i], rows[j]);
      HomeLater(db, b, units, more, b.equipments[i], rows[j].data.unitId);
      assert FromEquipment(db, b, units + more, b.equipments[i], rows[j]);
    }
  }

  // ---------- the partner loop ----------

  /** What holds while the partners are read: the rows, and what the map knows of them. */
  ghost predicate PartnerStage(live: Mode, db: Db, b: Bundle, s: State) {
    && PartnersAs(live, db, b, s.db.partners) && AllRefer(s.partnersByCode, s.db.partners)
    && (forall k :: k in s.partnersByCode ==> PartnerThere(db, b, k))
    && (forall k :: k in Index(db.partners) ==> k in s.partnersByCode)
    && s.db.units == db.units && s.db.equipments == db.equipments
    && s.unitsByCode == Index(db.units) && s.equipmentsByTag == Index(db.equipments) && s.unitByLegacyKey == map[]
  }

  lemma PartnerCreated(live: Mode, db: Db, b: Bundle, rows: seq<Row<PartnerData>>, known: map<string, Ref>,
                       row: Row<PartnerData>)
    requires PartnersAs(live, db, b, rows) && AllRefer(known, rows) && PartnerRowAs(live, b, row)
    ensures PartnersAs(live, db, b, rows + [row]) && AllRefer(known[row.code := Ref(row.id, row.code)], rows + [row])
  {
    hide PartnerRowAs, AllRefer;
    AllReferLater(known, rows, row);
  }

  lemma PartnerStepStage(live: Mode, db: Db, b: Bundle, s: State, p: LegacyPartner)
    requires live.Real? && PartnerStage(live, db, b, s) && p in b.partners
    ensures var t := PartnerStep(live, s, p);
            && PartnerStage(live, db, b, t) && s.partnersByCode.Keys <= t.partnersByCode.Keys
            && (t.ok ==> CodeOf(p) in t.partnersByCode || PartnerCode(p) in Index(db.partners))
  {
    hide PartnersAs, AllRefer, CleanCode, PartnerCode, CleanText, HasCode, Index, PartnerRowAs;
    var code := CodeOf(p);
    if s.ok {
      if PartnerCode(p) in s.partnersByCode {
        KnownIsThere(db, b, p);
      } else if code !in s.partnersByCode && !HasCode(s.db.partners, code) {
        var row := Row(live.partnerId(code), code, PartnerData(CleanText(p.name, code)));
        NamedRow(live, b, p, row);
        PartnerCreated(live, db, b, s.db.partners, s.partnersByCode, row);
        BundlePartnerThere(db, b, p);
      }
    }
  }

  lemma NamedRow(live: Mode, b: Bundle, p: LegacyPartner, row: Row<PartnerData>)
    requires live.Real? && p in b.partners
    requires row == Row(live.partnerId(CodeOf(p)), CodeOf(p), PartnerData(CleanText(p.name, CodeOf(p))))
    ensures PartnerRowAs(live, b, row)
  {
    hide CleanCode, PartnerCode, CleanText, Meant;
    CleanTextMeans(p.name, CodeOf(p));
    var i :| 0 <= i < |b.partners| && b.partners[i] == p;
  }

  lemma BundlePartnerThere(db: Db, b: Bundle, p: LegacyPartner)
    requires p in b.partners && PartnerCode(p) !in Index(db.partners)
    ensures PartnerThere(db, b, CodeOf(p))
  {
    hide CleanCode, PartnerCode, Index;
    var i :| 0 <= i < |b.partners| && b.partners[i] == p;
  }

  /** A partner known under its uncleaned code was in the table, or is known under its cleaned code. */
  lemma KnownIsThere(db: Db, b: Bundle, p: LegacyPartner)
    requires PartnerThere(db, b, PartnerCode(p))
    ensures PartnerCode(p) in Index(db.partners) || CodeOf(p) == PartnerCode(p)
  {
    hide Core, IsClean, PartnerCode, Index;
    if PartnerCode(p) !in Index(db.partners) {
      var i :| 0 <= i < |b.partners| && CodeOf(b.partners[i]) == PartnerCode(p);
      CleanedIsClean(PartnerCode(b.partners[i]));
      CleanedAgain(PartnerCode(p), NO_PARTNER);
    }
  }

  lemma CleanedIsClean(code: string)
    ensures IsClean(CleanCode(code, NO_PARTNER))
  {
    hide Core;
    CoreIsClean(if code != "" then code else NO_PARTNER);
    NoPartnerIsClean();
  }

  lemma NoPartnerIsClean()
    ensures IsClean(NO_PARTNER)
  {
    var s := NO_PARTNER;
    assert s[6] == '-' && s[10] == '-' && forall i :: 0 <= i < |s| && s[i] == '-' ==> i == 6 || i == 10;
  }

  lemma {:induction false} PartnersStaged(live: Mode, db: Db, b: Bundle, s: State, ps: seq<LegacyPartner>)
    requires live.Real? && PartnerStage(live, db, b, s) && forall p :: p in ps ==> p in b.partners
    ensures var t := ImportPartners(live, s, ps);
            && PartnerStage(live, db, b, t) && s.partnersByCode.Keys <= t.partnersByCode.Keys
            && (t.ok ==> forall p :: p in ps ==> CodeOf(p) in t.partnersByCode || PartnerCode(p) in Index(db.partners))
    decreases |ps|
  {
    hide PartnerStep, PartnerStage, CleanCode, PartnerCode, Index;
    if ps != [] {
      PartnerStepStage(live, db, b, s, ps[0]);
      PartnersStaged(live, db, b, PartnerStep(live, s, ps[0]), ps[1..]);
      if !PartnerStep(live, s, ps[0]).ok {
        FailedPartners(live, PartnerStep(live, s, ps[0]), ps[1..]);
      }
      assert ps == [ps[0]] + ps[1..];
    }
  }

  lemma BeginStage(live: Mode, db: Db, b: Bundle)
    ensures PartnerStage(live, db, b, Begin(db, b.units))
  {
    hide Index, UnitCodes, ResolvedDuplicates, AllRefer;
    IndexRefers(db.partners);
  }

  // ---------- the unit loop ----------

  /** What the maps of a run know of the partners once the bundle's are read. */
  ghost predicate PartnersHeld(live: Mode, db: Db, b: Bundle, s: State) {
    && PartnersAs(live, db, b, s.db.partners) && AllRefer(s.partnersByCode, s.db.partners)
    && (forall k :: k in s.partnersByCode ==> PartnerThere(db, b, k) || k == NO_PARTNER)
    && (forall k :: PartnerThere(db, b, k) ==> k in s.partnersByCode)
    && (s.fallback.Some? ==> Refers(s.db.partners, s.fallback.value.id, NO_PARTNER))
  }

  /** Every key leads to a row of a unit of the bundle with this key. */
  ghost predicate KeysLead(b: Bundle, units: seq<Row<UnitData>>, known: map<string, Ref>) {
    forall key :: key in known ==>
      exists i :: 0 <= i < |b.units| && b.units[i].key == key
                  && Refers(units, known[key].id, UnitCode(UnitCodes(b.units), b.units[i]))
  }

  ghost predicate UnitsHeld(live: Mode, db: Db, b: Bundle, s: State) {
    && UnitsAs(live, db, b, s.db.partners, s.db.units) && AllRefer(s.unitsByCode, s.db.units)
    && (forall k :: k in s.unitsByCode ==> UnitThere(db, b, k))
    && (forall k :: k in Index(db.units) ==> k in s.unitsByCode)
    && KeysLead(b, s.db.units, s.unitByLegacyKey)
  }

  ghost predicate UnitStage(live: Mode, db: Db, b: Bundle, s: State) {
    && PartnersHeld(live, db, b, s) && UnitsHeld(live, db, b, s)
    && s.db.equipments == db.equipments && s.equipmentsByTag == Index(db.equipments)
  }

  lemma KeysLeadLater(b: Bundle, units: seq<Row<UnitData>>, row: Row<UnitData>, known: map<string, Ref>)
    requires KeysLead(b, units, known)
    ensures KeysLead(b, units + [row], known)
  {
    hide Refers, UnitCode, UnitCodes;
    forall key | key in known
      ensures exists i :: 0 <= i < |b.units| && b.units[i].key == key
                          && Refers(units + [row], known[key].id, UnitCode(UnitCodes(b.units), b.units[i]))
    {
      var i :| 0 <= i < |b.units| && b.units[i].key == key
          && Refers(units, known[key].id, UnitCode(UnitCodes(b.units), b.units[i]));
      RefersLater(units, [row], known[key].id, UnitCode(UnitCodes(b.units), b.units[i]));
    }
  }

  lemma KeyBound(b: Bundle, units: seq<Row<UnitData>>, known: map<string, Ref>, u: LegacyUnit, ref: Ref)
    requires KeysLead(b, units, known) && u in b.units && Refers(units, ref.id, UnitCode(UnitCodes(b.units), u))
    ensures KeysLead(b, units, known[u.key := ref])
  {
    hide Refers, UnitCode, UnitCodes;
    var i :| 0 <= i < |b.units| && b.units[i] == u;
  }

  /** The fallback partner, once asked for, is there. */
  lemma FallbackHeld(live: Mode, db: Db, b: Bundle, s: State)
    requires live.Real? && UnitStage(live, db, b, s) && s.ok
    ensures var t := EnsureFallback(live, s);
            && UnitStage(live, db, b, t) && t.unitsByCode == s.unitsByCode && t.unitByLegacyKey == s.unitByLegacyKey
            && t.db.units == s.db.units
  {
    hide PartnersAs, UnitsAs, AllRefer, HasCode, Index, PartnerThere, UnitThere, KeysLead, Refers, PartnerRowAs;
    if s.fallback.None? && !HasCode(s.db.partners, NO_PARTNER) {
      var row := Row(live.partnerId(NO_PARTNER), NO_PARTNER, PartnerData("Legado sem parceiro identificado"));
      FallbackRow(live, b, row);
      PartnerCreated(live, db, b, s.db.partners, s.partnersByCode, row);
      UnitsLater(live, db, b, s.db.partners, [row], s.db.units);
      RefersNew(s.db.partners, row);
    }
  }

  lemma FallbackRow(live: Mode, b: Bundle, row: Row<PartnerData>)
    requires live.Real?
    requires row == Row(live.partnerId(NO_PARTNER), NO_PARTNER, PartnerData("Legado sem parceiro identificado"))
    ensures PartnerRowAs(live, b, row)
  {
    hide Meant, CodeOf;
  }

  /** A unit attached to its partner, or to the fallback. */
  lemma AttachHeld(live: Mode, db: Db, b: Bundle, s: State, u: LegacyUnit, partner: Ref)
    requires live.Real? && UnitStage(live, db, b, s) && s.ok && u in b.units
    requires UnitCode(UnitCodes(b.units), u) !in s.unitsByCode
    requires PartnerOf(db, b, s.db.partners, u, partner.id)
    ensures var code := UnitCode(UnitCodes(b.units), u);
            var t := AttachUnit(live, s, u, code, partner);
            UnitStage(live, db, b, t) && (t.ok ==> code in t.unitsByCode && u.key in t.unitByLegacyKey)
            && s.unitsByCode.Keys <= t.unitsByCode.Keys && s.unitByLegacyKey.Keys <= t.unitByLegacyKey.Keys
  {
    var code := UnitCode(UnitCodes(b.units), u);
    var t := AttachUnit(live, s, u, code, partner);
    var row := UnitRowOf(live, u, code, partner);
    AttachIs(live, s, u, code, partner);
    hide AttachUnit, UnitCode, UnitCodes, HasCode, UnitRowOf, PartnerOf;
    AttachedRow(live, db, b, s, u, partner);
    hide PartnersHeld, UnitsHeld;
    SamePartners(live, db, b, s, t);
    if t.ok {
      UnitsHeldNext(live, db, b, s, t, u, row);
    } else {
      UnitsHeldStill(live, db, b, s, t);
    }
  }

  /** The row of a unit, attached to its partner. */
  function UnitRowOf(live: Mode, u: LegacyUnit, code: string, partner: Ref): Row<UnitData> {
    Row(UnitId(live, code), code,
        UnitData(CleanText(u.name, code), OrNull(CleanText(u.city, "")), OrNull(CleanText(u.state, "")), partner.id))
  }

  lemma AttachedRow(live: Mode, db: Db, b: Bundle, s: State, u: LegacyUnit, partner: Ref)
    requires live.Real? && u in b.units && PartnerOf(db, b, s.db.partners, u, partner.id)
    ensures var code := UnitCode(UnitCodes(b.units), u);
            var row := UnitRowOf(live, u, code, partner);
            UnitRowAs(live, db, b, s.db.partners, row) && row.code == code
  {
    hide UnitCode, UnitCodes, PartnerOf, CleanText, OrNull, UnitRowAs;
    UnitRow(live, db, b, s.db.partners, u, UnitRowOf(live, u, UnitCode(UnitCodes(b.units), u), partner), partner);
  }

  lemma UnitsHeldNext(live: Mode, db: Db, b: Bundle, s: State, t: State, u: LegacyUnit, row: Row<UnitData>)
    requires UnitsHeld(live, db, b, s) && u in b.units && row.code == UnitCode(UnitCodes(b.units), u)
    requires UnitRowAs(live, db, b, s.db.partners, row)
    requires t.db.partners == s.db.partners && t.db.units == s.db.units + [row]
    requires t.unitsByCode == s.unitsByCode[row.code := Ref(row.id, row.code)]
    requires t.unitByLegacyKey == s.unitByLegacyKey[u.key := Ref(row.id, row.code)]
    ensures UnitsHeld(live, db, b, t)
  {
    hide UnitsAs, AllRefer, UnitThere, KeysLead, Refers, UnitRowAs, UnitCode, UnitCodes, Index;
    UnitCreated(live, db, b, s.db.partners, s.db.units, s.unitsByCode, row);
    KeysLeadLater(b, s.db.units, row, s.unitByLegacyKey);
    RefersNew(s.db.units, row);
    KeyBound(b, s.db.units + [row], s.unitByLegacyKey, u, Ref(row.id, row.code));
    BundleUnitThere(db, b, u);
  }

  lemma UnitsHeldStill(live: Mode, db: Db, b: Bundle, s: State, t: State)
    requires UnitsHeld(live, db, b, s) && t.db.partners == s.db.partners && t.db.units == s.db.units
    requires t.unitsByCode == s.unitsByCode && t.unitByLegacyKey == s.unitByLegacyKey
    ensures UnitsHeld(live, db, b, t)
  {
    hide UnitsAs, AllRefer, UnitThere, KeysLead;
  }

  /** What creating a unit does to the tables and the maps. */
  lemma CreateIs(live: Mode, s: State, code: string, data: UnitData)
    requires live.Real? && s.ok
    ensures var t, row := CreateUnit(live, s, code, data), Row(UnitId(live, code), code, data);
            && t.db.partners == s.db.partners && t.db.equipments == s.db.equipments
            && t.partnersByCode == s.partnersByCode && t.fallback == s.fallback
            && t.equipmentsByTag == s.equipmentsByTag
            && t.unitByLegacyKey == s.unitByLegacyKey && (t.ok <==> !HasCode(s.db.units, code))
            && t.db.units == (if t.ok then s.db.units + [row] else s.db.units)
            && t.unitsByCode == (if t.ok then s.unitsByCode[code := Ref(row.id, code)] else s.unitsByCode)
  {
    hide HasCode;
  }

  /** What attaching a unit does to the tables and the maps. */
  lemma AttachIs(live: Mode, s: State, u: LegacyUnit, code: string, partner: Ref)
    requires live.Real? && s.ok && code !in s.unitsByCode
    ensures var t, row := AttachUnit(live, s, u, code, partner), UnitRowOf(live, u, code, partner);
            && t.db.partners == s.db.partners && t.db.equipments == s.db.equipments
            && t.partnersByCode == s.partnersByCode && t.fallback == s.fallback
            && t.equipmentsByTag == s.equipmentsByTag
            && (t.ok <==> !HasCode(s.db.units, code))
            && t.db.units == (if t.ok then s.db.units + [row] else s.db.units)
            && t.unitsByCode == (if t.ok then s.unitsByCode[code := Ref(row.id, code)] else s.unitsByCode)
            && t.unitByLegacyKey == (if t.ok then s.unitByLegacyKey[u.key := Ref(row.id, code)] else s.unitByLegacyKey)
  {
    hide HasCode, CleanText, OrNull, CreateUnit;
    var data := UnitRowOf(live, u, code, partner).data;
    CreateIs(live, s, code, data);
    CreateIs(live, s.(stats := s.stats.(unitsWithoutPartner := s.stats.unitsWithoutPartner + 1)), code, data);
  }

  lemma SamePartners(live: Mode, db: Db, b: Bundle, s: State, t: State)
    requires PartnersHeld(live, db, b, s)
    requires t.db.partners == s.db.partners && t.partnersByCode == s.partnersByCode && t.fallback == s.fallback
    ensures PartnersHeld(live, db, b, t)
  {
    hide PartnersAs, AllRefer, PartnerThere, Refers;
  }

  lemma UnitRow(live: Mode, db: Db, b: Bundle, partners: seq<Row<PartnerData>>, u: LegacyUnit, row: Row<UnitData>,
                partner: Ref)
    requires live.Real? && u in b.units && PartnerOf(db, b, partners, u, partner.id)
    requires row.code == UnitCode(UnitCodes(b.units), u) && row.id == live.unitId(row.code)
    requires row.data == UnitData(CleanText(u.name, row.code), OrNull(CleanText(u.city, "")),
                                  OrNull(CleanText(u.state, "")), partner.id)
    ensures UnitRowAs(live, db, b, partners, row)
  {
    hide UnitCode, UnitCodes, CleanText, OrNull, PartnerOf, Meant, MeantOrNone;
    CleanTextMeans(u.name, row.code);
    CleanTextMeans(u.city, "");
    CleanTextMeans(u.state, "");
    var i :| 0 <= i < |b.units| && b.units[i] == u;
    assert FromUnit(db, b, partners, b.units[i], row);
  }

  lemma UnitCreated(live: Mode, db: Db, b: Bundle, partners: seq<Row<PartnerData>>, rows: seq<Row<UnitData>>,
                    known: map<string, Ref>, row: Row<UnitData>)
    requires UnitsAs(live, db, b, partners, rows) && AllRefer(known, rows) && UnitRowAs(live, db, b, partners, row)
    ensures UnitsAs(live, db, b, partners, rows + [row])
    ensures AllRefer(known[row.code := Ref(row.id, row.code)], rows + [row])
  {
    hide UnitRowAs, AllRefer;
    AllReferLater(known, rows, row);
  }

  lemma BundleUnitThere(db: Db, b: Bundle, u: LegacyUnit)
    requires u in b.units
    ensures UnitThere(db, b, UnitCode(UnitCodes(b.units), u))
  {
    hide UnitCode, UnitCodes, Index;
    var i :| 0 <= i < |b.units| && b.units[i] == u;
  }

  lemma UnitStepStage(live: Mode, db: Db, b: Bundle, s: State, u: LegacyUnit)
    requires live.Real? && UnitStage(live, db, b, s) && u in b.units
    ensures var t := UnitStep(live, UnitCodes(b.units), s, u);
            && UnitStage(live, db, b, t) && s.unitsByCode.Keys <= t.unitsByCode.Keys
            && s.unitByLegacyKey.Keys <= t.unitByLegacyKey.Keys
            && (t.ok ==> s.ok && UnitCode(UnitCodes(b.units), u) in t.unitsByCode && u.key in t.unitByLegacyKey)
  {
    hide UnitStage, EnsureFallback, AttachUnit, UnitCode, UnitCodes, CleanCode, PartnerOf;
    var code := UnitCode(UnitCodes(b.units), u);
    if s.ok {
      if code in s.unitsByCode {
        SkipHeld(live, db, b, s, u);
      } else if UnitPartnerCode(u) in s.partnersByCode {
        OwnPartner(live, db, b, s, u);
        AttachHeld(live, db, b, s, u, s.partnersByCode[UnitPartnerCode(u)]);
      } else {
        FallbackHeld(live, db, b, s);
        var ready := EnsureFallback(live, s);
        if ready.ok {
          FallbackPartner(live, db, b, s, u);
          AttachHeld(live, db, b, ready, u, ready.fallback.value);
        }
      }
    }
  }

  lemma SkipHeld(live: Mode, db: Db, b: Bundle, s: State, u: LegacyUnit)
    requires UnitStage(live, db, b, s) && u in b.units && UnitCode(UnitCodes(b.units), u) in s.unitsByCode
    ensures var t := BindKey(s, u.key, UnitCode(UnitCodes(b.units), u));
            && UnitStage(live, db, b, t)
            && UnitStage(live, db, b, t.(stats := t.stats.(unitsSkipped := t.stats.unitsSkipped + 1)))
  {
    hide UnitsAs, PartnersAs, KeysLead, Refers, UnitCode, UnitCodes, Index, UnitThere, PartnerThere;
    KeyBound(b, s.db.units, s.unitByLegacyKey, u, s.unitsByCode[UnitCode(UnitCodes(b.units), u)]);
  }

  lemma OwnPartner(live: Mode, db: Db, b: Bundle, s: State, u: LegacyUnit)
    requires UnitStage(live, db, b, s) && UnitPartnerCode(u) in s.partnersByCode
    ensures PartnerOf(db, b, s.db.partners, u, s.partnersByCode[UnitPartnerCode(u)].id)
  {
    hide UnitsHeld, PartnersAs, Refers, PartnerThere, CleanCode, Index;
  }

  lemma FallbackPartner(live: Mode, db: Db, b: Bundle, s: State, u: LegacyUnit)
    requires live.Real? && UnitStage(live, db, b, s) && s.ok && UnitPartnerCode(u) !in s.partnersByCode
    requires EnsureFallback(live, s).ok
    ensures var t := EnsureFallback(live, s); PartnerOf(db, b, t.db.partners, u, t.fallback.value.id)
  {
    FallbackHeld(live, db, b, s);
    hide UnitsHeld, PartnersAs, Refers, PartnerThere, CleanCode, Index, EnsureFallback, AllRefer;
  }

  lemma {:induction false} UnitsStaged(live: Mode, db: Db, b: Bundle, s: State, us: seq<LegacyUnit>)
    requires live.Real? && UnitStage(live, db, b, s) && forall u :: u in us ==> u in b.units
    ensures var t := ImportUnits(live, UnitCodes(b.units), s, us);
            && UnitStage(live, db, b, t) && s.unitsByCode.Keys <= t.unitsByCode.Keys
            && s.unitByLegacyKey.Keys <= t.unitByLegacyKey.Keys
            && (t.ok ==> s.ok && forall u :: u in us ==>
                  UnitCode(UnitCodes(b.units), u) in t.unitsByCode && u.key in t.unitByLegacyKey)
    decreases |us|
  {
    hide UnitStep, UnitStage, UnitCode, UnitCodes;
    if us != [] {
      UnitStepStage(live, db, b, s, us[0]);
      UnitsStaged(live, db, b, UnitStep(live, UnitCodes(b.units), s, us[0]), us[1..]);
      assert us == [us[0]] + us[1..];
    }
  }

  /** After the partner loop the unit loop can begin. */
  lemma UnitsBegin(live: Mode, db: Db, b: Bundle, s: State)
    requires PartnerStage(live, db, b, s) && s.fallback.None?
    requires s.ok ==> forall p :: p in b.partners ==>
        CodeOf(p) in s.partnersByCode || PartnerCode(p) in Index(db.partners)
    ensures s.ok ==> UnitStage(live, db, b, ReadFallback(s))
  {
    hide PartnersAs, CodeOf, PartnerCode, Index, Refers, UnitCode, UnitCodes;
    IndexRefers(db.units);
    if s.ok {
      forall k | PartnerThere(db, b, k) ensures k in s.partnersByCode {
        if k !in Index(db.partners) {
          var i :| 0 <= i < |b.partners| && CodeOf(b.partners[i]) == k
              && PartnerCode(b.partners[i]) !in Index(db.partners);
          assert b.partners[i] in b.partners;
        }
      }
    }
  }

  // ---------- the equipment loop ----------

  ghost predicate EquipmentStage(live: Mode, db: Db, b: Bundle, s: State) {
    && PartnersAs(live, db, b, s.db.partners) && AllRefer(s.partnersByCode, s.db.partners)
    && (forall k :: PartnerThere(db, b, k) ==> k in s.partnersByCode)
    && UnitsAs(live, db, b, s.db.partners, s.db.units) && AllRefer(s.unitsByCode, s.db.units)
    && (forall k :: k in s.unitsByCode ==> UnitThere(db, b, k) || k == STOCK_UNIT)
    && (forall k :: UnitThere(db, b, k) ==> k in s.unitsByCode)
    && KeysLead(b, s.db.units, s.unitByLegacyKey)
    && (forall key :: HasKey(b, key) ==> key in s.unitByLegacyKey)
    && EquipmentsAs(live, db, b, s.db.units, s.db.equipments) && AllRefer(s.equipmentsByTag, s.db.equipments)
  }

  /** The equipment has a unit of the bundle or of the table, or comes from a Starlink. */
  ghost predicate HasHome(db: Db, b: Bundle, e: LegacyEquipment) {
    || (e.unitKey != "" && HasKey(b, e.unitKey))
    || (CleanCode(e.unitCode, "") != "" && UnitThere(db, b, CleanCode(e.unitCode, "")))
    || e.source == "starlinks"
  }

  /** The stock unit, once asked for, is there. */
  lemma StockHeld(live: Mode, db: Db, b: Bundle, s: State)
    requires live.Real? && EquipmentStage(live, db, b, s) && s.ok
    ensures EquipmentStage(live, db, b, EnsureStockUnit(live, s))
  {
    hide CreateUnit, EquipmentStage, EnsurePartner;
    StockPartnerHeld(live, db, b, s);
    var ready := EnsurePartner(live, s, STARLINK_PARTNER, "Starlink");
    if ready.ok && STOCK_UNIT !in ready.unitsByCode {
      var partner := ready.partnersByCode[CleanCode(STARLINK_PARTNER, NO_PARTNER)];
      StockCreated(live, db, b, ready.(stats := ready.stats.(stockUnitCreated := true)), partner);
    }
  }

  lemma StockPartnerHeld(live: Mode, db: Db, b: Bundle, s: State)
    requires live.Real? && EquipmentStage(live, db, b, s) && s.ok
    ensures var t := EnsurePartner(live, s, STARLINK_PARTNER, "Starlink");
            && EquipmentStage(live, db, b, t)
            && EquipmentStage(live, db, b, t.(stats := t.stats.(stockUnitCreated := true)))
            && (t.ok ==> STARLINK_PARTNER in t.partnersByCode
                         && Refers(t.db.partners, t.partnersByCode[STARLINK_PARTNER].id, STARLINK_PARTNER))
            && CleanCode(STARLINK_PARTNER, NO_PARTNER) == STARLINK_PARTNER && t.unitsByCode == s.unitsByCode
  {
    StarlinkIsClean();
    hide PartnersAs, UnitsAs, EquipmentsAs, AllRefer, HasCode, UnitThere, KeysLead, HasKey, Refers, CleanCode,
         CleanText, PartnerRowAs;
    if STARLINK_PARTNER in s.partnersByCode {
      KnownRefers(s.partnersByCode, s.db.partners, STARLINK_PARTNER);
    } else if !HasCode(s.db.partners, STARLINK_PARTNER) {
      var row := Row(live.partnerId(STARLINK_PARTNER), STARLINK_PARTNER,
                     PartnerData(CleanText("Starlink", STARLINK_PARTNER)));
      StarlinkRow(live, b, row);
      PartnerCreated(live, db, b, s.db.partners, s.partnersByCode, row);
      UnitsLater(live, db, b, s.db.partners, [row], s.db.units);
      RefersNew(s.db.partners, row);
    }
  }

  lemma KnownRefers<D>(known: map<string, Ref>, rows: seq<Row<D>>, k: string)
    requires AllRefer(known, rows) && k in known
    ensures Refers(rows, known[k].id, k)
  {
    hide Refers;
  }

  lemma StarlinkIsClean()
    ensures CleanCode(STARLINK_PARTNER, NO_PARTNER) == STARLINK_PARTNER
  {
    hide Core;
    CleanIsFixed(STARLINK_PARTNER);
  }

  lemma StarlinkRow(live: Mode, b: Bundle, row: Row<PartnerData>)
    requires live.Real?
    requires row == Row(live.partnerId(STARLINK_PARTNER), STARLINK_PARTNER,
                        PartnerData(CleanText("Starlink", STARLINK_PARTNER)))
    ensures PartnerRowAs(live, b, row)
  {
    hide Meant, CodeOf;
    TrimIdentity("Starlink");
  }

  lemma StockCreated(live: Mode, db: Db, b: Bundle, s: State, partner: Ref)
    requires live.Real? && EquipmentStage(live, db, b, s) && s.ok && STOCK_UNIT !in s.unitsByCode
    requires Refers(s.db.partners, partner.id, STARLINK_PARTNER)
    ensures EquipmentStage(live, db, b, CreateUnit(live, s, STOCK_UNIT,
                                                   UnitData("Estoque legado de Starlinks", None, None, partner.id)))
  {
    hide PartnersAs, UnitsAs, EquipmentsAs, AllRefer, HasCode, UnitThere, KeysLead, HasKey, Refers, UnitRowAs;
    if !HasCode(s.db.units, STOCK_UNIT) {
      var row := Row(live.unitId(STOCK_UNIT), STOCK_UNIT,
                     UnitData("Estoque legado de Starlinks", None, None, partner.id));
      assert UnitRowAs(live, db, b, s.db.partners, row) by {
        StockIsRow(live, db, b, s.db.partners, row);
      }
      UnitCreated(live, db, b, s.db.partners, s.db.units, s.unitsByCode, row);
      KeysLeadLater(b, s.db.units, row, s.unitByLegacyKey);
      EquipmentsLater(live, db, b, s.db.units, [row], s.db.equipments);
    }
  }

  lemma StockIsRow(live: Mode, db: Db, b: Bundle, partners: seq<Row<PartnerData>>, row: Row<UnitData>)
    requires live.Real? && row.id == live.unitId(row.code) && StockRow(partners, row)
    ensures UnitRowAs(live, db, b, partners, row)
  {
    hide FromUnit, StockRow;
  }

  /** The unit an equipment is found at is its home. */
  lemma FoundHome(live: Mode, db: Db, b: Bundle, s: State, e: LegacyEquipment)
    requires EquipmentStage(live, db, b, s) && UnitFor(s, e).Some?
    ensures HomeOf(db, b, s.db.units, e, UnitFor(s, e).value.id)
  {
    hide PartnersAs, UnitsAs, EquipmentsAs, UnitThere, Refers, CleanCode, UnitCode, UnitCodes;
    var code := CleanCode(e.unitCode, "");
    if e.unitKey != "" && e.unitKey in s.unitByLegacyKey {
      KeyIsBundles(b, s.db.units, s.unitByLegacyKey, e.unitKey);
    } else {
      KnownRefers(s.unitsByCode, s.db.units, code);
    }
  }

  lemma KeyIsBundles(b: Bundle, units: seq<Row<UnitData>>, known: map<string, Ref>, key: string)
    requires KeysLead(b, units, known) && key in known
    ensures HasKey(b, key)
    ensures exists i :: 0 <= i < |b.units| && b.units[i].key == key
                        && Refers(units, known[key].id, UnitCode(UnitCodes(b.units), b.units[i]))
  {
    hide Refers, UnitCode, UnitCodes;
    var i :| 0 <= i < |b.units| && b.units[i].key == key
        && Refers(units, known[key].id, UnitCode(UnitCodes(b.units), b.units[i]));
  }

  /** What is not found and comes from a Starlink is at home in the stock. */
  lemma StockHome(live: Mode, db: Db, b: Bundle, s: State, t: State, e: LegacyEquipment)
    requires EquipmentStage(live, db, b, s) && UnitFor(s, e).None? && e.source == "starlinks"
    requires EquipmentStage(live, db, b, t) && STOCK_UNIT in t.unitsByCode
    ensures HomeOf(db, b, t.db.units, e, t.unitsByCode[STOCK_UNIT].id)
  {
    hide PartnersAs, UnitsAs, EquipmentsAs, UnitThere, Refers, CleanCode, UnitCode, UnitCodes, HasKey, KeysLead;
    KnownRefers(t.unitsByCode, t.db.units, STOCK_UNIT);
  }

  lemma AttachedAs(live: Mode, db: Db, b: Bundle, s: State, e: LegacyEquipment, unit: Ref)
    requires live.Real? && EquipmentStage(live, db, b, s) && s.ok && e in b.equipments
    requires HomeOf(db, b, s.db.units, e, unit.id)
    ensures var t := AttachEquipment(live, s, e, unit);
            && EquipmentStage(live, db, b, t) && s.equipmentsByTag.Keys <= t.equipmentsByTag.Keys
            && (t.ok ==> TagOf(e) in t.equipmentsByTag)
  {
    hide PartnersAs, UnitsAs, AllRefer, HasCode, UnitThere, KeysLead, HasKey, HomeOf, CleanText, OrNull, CleanCode,
         Lower, EquipmentRowAs;
    var tag := TagOf(e);
    if !HasCode(s.db.equipments, tag) {
      var row := Row(live.equipmentId(tag), tag,
                     EquipmentData(CleanText(e.name, tag), Lower(CleanText(e.kind, "legacy")),
                                   OrNull(CleanText(e.serialNumber, "")), Lower(CleanText(e.status, "active")),
                                       unit.id));
      EquipmentRow(live, db, b, s.db.units, e, unit, row);
      AllReferLater(s.equipmentsByTag, s.db.equipments, row);
    }
  }

  lemma EquipmentRow(live: Mode, db: Db, b: Bundle, units: seq<Row<UnitData>>, e: LegacyEquipment, unit: Ref,
                     row: Row<EquipmentData>)
    requires live.Real? && e in b.equipments && HomeOf(db, b, units, e, unit.id)
    requires row == Row(live.equipmentId(TagOf(e)), TagOf(e),
                        EquipmentData(CleanText(e.name, TagOf(e)), Lower(CleanText(e.kind, "legacy")),
                                      OrNull(CleanText(e.serialNumber, "")), Lower(CleanText(e.status, "active")),
                                      unit.id))
    ensures EquipmentRowAs(live, db, b, units, row)
  {
    hide HomeOf, CleanText, OrNull, CleanCode, Lower, Meant, MeantOrNone;
    CleanTextMeans(e.name, TagOf(e));
    CleanTextMeans(e.kind, "legacy");
    CleanTextMeans(e.serialNumber, "");
    CleanTextMeans(e.status, "active");
    var i :| 0 <= i < |b.equipments| && b.equipments[i] == e;
    assert FromEquipment(db, b, units, b.equipments[i], row);
  }

  lemma EquipmentStepStage(live: Mode, db: Db, b: Bundle, s: State, e: LegacyEquipment)
    requires live.Real? && EquipmentStage(live, db, b, s) && e in b.equipments
    ensures var t := EquipmentStep(live, s, e);
            && EquipmentStage(live, db, b, t) && s.equipmentsByTag.Keys <= t.equipmentsByTag.Keys
            && (t.ok ==> s.ok) && (t.ok && HasHome(db, b, e) ==> TagOf(e) in t.equipmentsByTag)
  {
    hide AttachEquipment, EnsureStockUnit, UnitFor, TagOf, HomeOf;
    if s.ok && TagOf(e) !in s.equipmentsByTag {
      if UnitFor(s, e).Some? {
        hide EquipmentStage;
        FoundHome(live, db, b, s, e);
        AttachedAs(live, db, b, s, e, UnitFor(s, e).value);
      } else if e.source == "starlinks" {
        hide EquipmentStage;
        StockHeld(live, db, b, s);
        StockKeepsTags(live, s);
        var ready := EnsureStockUnit(live, s);
        if ready.ok {
          StockHome(live, db, b, s, ready, e);
          AttachedAs(live, db, b, ready, e, ready.unitsByCode[STOCK_UNIT]);
        }
      } else {
        FoundIfHome(live, db, b, s, e);
      }
    }
  }

  lemma FoundIfHome(live: Mode, db: Db, b: Bundle, s: State, e: LegacyEquipment)
    requires EquipmentStage(live, db, b, s) && UnitFor(s, e).None? && e.source != "starlinks"
    ensures !HasHome(db, b, e)
  {
    hide PartnersAs, UnitsAs, EquipmentsAs, UnitThere, AllRefer, CleanCode, KeysLead, HasKey;
  }

  lemma StockKeepsTags(live: Mode, s: State)
    ensures EnsureStockUnit(live, s).equipmentsByTag == s.equipmentsByTag
  {
    hide CleanCode, CreateUnit, CreatePartner, CleanText;
    var code := CleanCode(STARLINK_PARTNER, NO_PARTNER);
    PartnerKeepsTags(live, s, code, CleanText("Starlink", code), PartnerId(live, code));
    var ready := EnsurePartner(live, s, STARLINK_PARTNER, "Starlink");
    if ready.ok && STOCK_UNIT !in ready.unitsByCode {
      UnitKeepsTags(live, ready.(stats := ready.stats.(stockUnitCreated := true)), STOCK_UNIT,
                    UnitData("Estoque legado de Starlinks", None, None, ready.partnersByCode[code].id));
    }
  }

  lemma PartnerKeepsTags(live: Mode, s: State, code: string, name: string, id: string)
    ensures CreatePartner(live, s, code, name, id).equipmentsByTag == s.equipmentsByTag
  {
    hide HasCode, InsertPartner;
  }

  lemma UnitKeepsTags(live: Mode, s: State, code: string, data: UnitData)
    ensures CreateUnit(live, s, code, data).equipmentsByTag == s.equipmentsByTag
  {
    hide HasCode, InsertUnit, UnitId;
  }

  lemma {:induction false} EquipmentsStaged(live: Mode, db: Db, b: Bundle, s: State, es: seq<LegacyEquipment>)
    requires live.Real? && EquipmentStage(live, db, b, s) && forall e :: e in es ==> e in b.equipments
    ensures var t := ImportEquipments(live, s, es);
            && EquipmentStage(live, db, b, t) && s.equipmentsByTag.Keys <= t.equipmentsByTag.Keys
            && (t.ok ==> s.ok && forall e :: e in es && HasHome(db, b, e) ==> TagOf(e) in t.equipmentsByTag)
    decreases |es|
  {
    hide EquipmentStep, EquipmentStage, HasHome, TagOf;
    if es != [] {
      EquipmentStepStage(live, db, b, s, es[0]);
      EquipmentsStaged(live, db, b, EquipmentStep(live, s, es[0]), es[1..]);
      assert es == [es[0]] + es[1..];
    }
  }

  lemma EquipmentsBegin(live: Mode, db: Db, b: Bundle, s: State)
    requires UnitStage(live, db, b, s) && s.ok
    requires forall u :: u in b.units ==> UnitCode(UnitCodes(b.units), u) in s.unitsByCode && u.key in s.unitByLegacyKey
    ensures EquipmentStage(live, db, b, s)
  {
    hide PartnersAs, UnitsAs, UnitCode, UnitCodes, Index, KeysLead, AllRefer;
    IndexRefers(db.equipments);
    forall k | UnitThere(db, b, k) ensures k in s.unitsByCode {
      if k !in Index(db.units) {
        var i :| 0 <= i < |b.units| && UnitCode(UnitCodes(b.units), b.units[i]) == k;
        assert b.units[i] in b.units;
      }
    }
    forall key | HasKey(b, key) ensures key in s.unitByLegacyKey {
      var i :| 0 <= i < |b.units| && b.units[i].key == key;
      assert b.units[i] in b.units;
    }
  }

  // ---------- what is counted ----------

  /** As many rows were added to each table as the report says were created. */
  ghost predicate Balanced(db: Db, s: State) {
    && |s.db.partners| == |db.partners| + s.stats.partnersCreated && |s.db.units| == |db.units| + s.stats.unitsCreated
    && |s.db.equipments| == |db.equipments| + s.stats.equipmentsCreated
  }

  lemma PartnerBalanced(live: Mode, db: Db, s: State, code: string, name: string, id: string)
    requires live.Real? && Balanced(db, s)
    ensures Balanced(db, CreatePartner(live, s, code, name, id))
  {
    hide HasCode;
  }

  lemma UnitBalanced(live: Mode, db: Db, s: State, code: string, data: UnitData)
    requires live.Real? && Balanced(db, s)
    ensures Balanced(db, CreateUnit(live, s, code, data))
  {
    hide HasCode;
  }

  lemma EquipmentBalanced(live: Mode, db: Db, s: State, tag: string, data: EquipmentData)
    requires live.Real? && Balanced(db, s)
    ensures Balanced(db, CreateEquipment(live, s, tag, data))
  {
    hide HasCode;
  }

  lemma EnsuredBalanced(live: Mode, db: Db, s: State, code: string, name: string)
    requires live.Real? && Balanced(db, s)
    ensures Balanced(db, EnsurePartner(live, s, code, name))
  {
    hide CreatePartner, CleanCode, CleanText, Balanced;
    var clean := CleanCode(code, NO_PARTNER);
    PartnerBalanced(live, db, s, clean, CleanText(name, clean), PartnerId(live, clean));
  }

  lemma {:induction false} PartnersBalanced(live: Mode, db: Db, s: State, ps: seq<LegacyPartner>)
    requires live.Real? && Balanced(db, s)
    ensures Balanced(db, ImportPartners(live, s, ps))
    decreases |ps|
  {
    hide EnsurePartner, PartnerCode;
    if ps != [] {
      EnsuredBalanced(live, db, s, PartnerCode(ps[0]), ps[0].name);
      PartnersBalanced(live, db, PartnerStep(live, s, ps[0]), ps[1..]);
    }
  }

  lemma AttachedBalanced(live: Mode, db: Db, s: State, u: LegacyUnit, code: string, partner: Ref)
    requires live.Real? && Balanced(db, s)
    ensures Balanced(db, AttachUnit(live, s, u, code, partner))
  {
    hide CreateUnit, CleanText, OrNull;
    var data := UnitData(CleanText(u.name, code), OrNull(CleanText(u.city, "")), OrNull(CleanText(u.state, "")),
                         partner.id);
    UnitBalanced(live, db, s, code, data);
    UnitBalanced(live, db, s.(stats := s.stats.(unitsWithoutPartner := s.stats.unitsWithoutPartner + 1)), code, data);
  }

  lemma FallbackBalanced(live: Mode, db: Db, s: State)
    requires live.Real? && Balanced(db, s)
    ensures Balanced(db, EnsureFallback(live, s))
  {
    hide CreatePartner;
    PartnerBalanced(live, db, s.(fallbackUsed := true), NO_PARTNER, "Legado sem parceiro identificado",
                    PartnerId(live, NO_PARTNER));
  }

  lemma {:induction false} UnitsBalanced(live: Mode, codes: map<string, string>, db: Db, s: State, us: seq<LegacyUnit>)
    requires live.Real? && Balanced(db, s)
    ensures Balanced(db, ImportUnits(live, codes, s, us))
    decreases |us|
  {
    hide AttachUnit, EnsureFallback, UnitCode, UnitPartnerCode;
    if us != [] {
      var u, code := us[0], UnitCode(codes, us[0]);
      FallbackBalanced(live, db, s);
      if UnitPartnerCode(u) in s.partnersByCode {
        AttachedBalanced(live, db, s, u, code, s.partnersByCode[UnitPartnerCode(u)]);
      } else if EnsureFallback(live, s).ok {
        AttachedBalanced(live, db, EnsureFallback(live, s), u, code, EnsureFallback(live, s).fallback.value);
      }
      UnitsBalanced(live, codes, db, UnitStep(live, codes, s, u), us[1..]);
    }
  }

  lemma StockBalanced(live: Mode, db: Db, s: State)
    requires live.Real? && Balanced(db, s)
    ensures Balanced(db, EnsureStockUnit(live, s))
  {
    hide EnsurePartner, CreateUnit, CleanCode;
    EnsuredBalanced(live, db, s, STARLINK_PARTNER, "Starlink");
    var ready := EnsurePartner(live, s, STARLINK_PARTNER, "Starlink");
    if ready.ok && STOCK_UNIT !in ready.unitsByCode {
      UnitBalanced(live, db, ready.(stats := ready.stats.(stockUnitCreated := true)), STOCK_UNIT,
                   UnitData("Estoque legado de Starlinks", None, None,
                            ready.partnersByCode[CleanCode(STARLINK_PARTNER, NO_PARTNER)].id));
    }
  }

  lemma PlacedBalanced(live: Mode, db: Db, s: State, e: LegacyEquipment, unit: Ref)
    requires live.Real? && Balanced(db, s)
    ensures Balanced(db, AttachEquipment(live, s, e, unit))
  {
    hide CreateEquipment, CleanText, OrNull, TagOf, Lower;
    EquipmentBalanced(live, db, s, TagOf(e),
                      EquipmentData(CleanText(e.name, TagOf(e)), Lower(CleanText(e.kind, "legacy")),
                                    OrNull(CleanText(e.serialNumber, "")), Lower(CleanText(e.status, "active")),
                                    unit.id));
  }

  lemma {:induction false} EquipmentsBalanced(live: Mode, db: Db, s: State, es: seq<LegacyEquipment>)
    requires live.Real? && Balanced(db, s)
    ensures Balanced(db, ImportEquipments(live, s, es))
    decreases |es|
  {
    hide AttachEquipment, EnsureStockUnit, UnitFor, TagOf;
    if es != [] {
      var e, ready := es[0], EnsureStockUnit(live, s);
      StockBalanced(live, db, s);
      if UnitFor(s, e).Some? {
        PlacedBalanced(live, db, s, e, UnitFor(s, e).value);
      } else if ready.ok {
        PlacedBalanced(live, db, ready, e, ready.unitsByCode[STOCK_UNIT]);
      }
      EquipmentsBalanced(live, db, EquipmentStep(live, s, e), es[1..]);
    }
  }

  // ---------- main results ----------

  /** Whatever a real run has written, well ended or not, are partners, units and equipments of its bundle. */
  ghost predicate WrittenAs(live: Mode, db: Db, b: Bundle, after: Db) {
    && PartnersAs(live, db, b, after.partners) && UnitsAs(live, db, b, after.partners, after.units)
    && EquipmentsAs(live, db, b, after.units, after.equipments)
  }

  /** Every partner, every unit and every equipment with a home stands in the tables under its code or tag. */
  ghost predicate AllWritten(db: Db, b: Bundle, after: Db) {
    && (forall p :: p in b.partners ==> exists id :: Refers(after.partners, id, CodeOf(p))
                                                     || Refers(after.partners, id, PartnerCode(p)))
    && (forall u :: u in b.units ==> exists id :: Refers(after.units, id, UnitCode(UnitCodes(b.units), u)))
    && (forall e :: e in b.equipments && HasHome(db, b, e) ==>
          exists id :: Refers(after.equipments, id, CleanCode(e.tag, "LEGACY-EQ-" + e.legacyId)))
  }

  lemma UnitStageAs(live: Mode, db: Db, b: Bundle, s: State)
    requires UnitStage(live, db, b, s)
    ensures WrittenAs(live, db, b, s.db)
  {
    hide PartnerRowAs, UnitRowAs, EquipmentRowAs, AllRefer, UnitThere, PartnerThere, KeysLead;
  }

  /** The maps at the end of the run find everything in the tables. */
  lemma EquipmentStageAs(live: Mode, db: Db, b: Bundle, s: State)
    requires EquipmentStage(live, db, b, s)
    ensures WrittenAs(live, db, b, s.db)
    ensures (forall e :: e in b.equipments && HasHome(db, b, e) ==> TagOf(e) in s.equipmentsByTag) ==>
              AllWritten(db, b, s.db)
  {
    hide PartnersAs, UnitsAs, EquipmentsAs, AllRefer, UnitThere, PartnerThere, KeysLead, HasKey, HasHome, CodeOf,
         PartnerCode, UnitCode, UnitCodes, CleanCode, Refers, Index;
    if forall e :: e in b.equipments && HasHome(db, b, e) ==> TagOf(e) in s.equipmentsByTag {
      forall p | p in b.partners
        ensures exists id :: Refers(s.db.partners, id, CodeOf(p)) || Refers(s.db.partners, id, PartnerCode(p))
      {
        PartnerStands(live, db, b, s, p);
      }
      forall u | u in b.units ensures exists id :: Refers(s.db.units, id, UnitCode(UnitCodes(b.units), u)) {
        BundleUnitThere(db, b, u);
        KnownRefers(s.unitsByCode, s.db.units, UnitCode(UnitCodes(b.units), u));
      }
      forall e | e in b.equipments && HasHome(db, b, e)
        ensures exists id :: Refers(s.db.equipments, id, CleanCode(e.tag, "LEGACY-EQ-" + e.legacyId))
      {
        KnownRefers(s.equipmentsByTag, s.db.equipments, TagOf(e));
      }
    }
  }

  lemma PartnerStands(live: Mode, db: Db, b: Bundle, s: State, p: LegacyPartner)
    requires EquipmentStage(live, db, b, s) && p in b.partners
    ensures exists id :: Refers(s.db.partners, id, CodeOf(p)) || Refers(s.db.partners, id, PartnerCode(p))
  {
    hide PartnersAs, UnitsAs, EquipmentsAs, AllRefer, UnitThere, KeysLead, HasKey, CodeOf, PartnerCode, Refers, Index;
    if PartnerCode(p) in Index(db.partners) {
      KnownRefers(s.partnersByCode, s.db.partners, PartnerCode(p));
    } else {
      BundlePartnerThere(db, b, p);
      KnownRefers(s.partnersByCode, s.db.partners, CodeOf(p));
    }
  }

  lemma {:induction false} NoFallbackYet(live: Mode, s: State, ps: seq<LegacyPartner>)
    ensures ImportPartners(live, s, ps).fallback == s.fallback
    decreases |ps|
  {
    hide CleanCode, PartnerCode, CleanText, HasCode;
    if ps != [] {
      NoFallbackYet(live, PartnerStep(live, s, ps[0]), ps[1..]);
    }
  }

  /** After the partner loop, which never fails, the unit loop begins. */
  lemma PartnersDone(live: Mode, db: Db, b: Bundle)
    requires live.Real?
    ensures UnitStage(live, db, b, ReadFallback(ImportPartners(live, Begin(db, b.units), b.partners)))
  {
    var start := Begin(db, b.units);
    BeginStage(live, db, b);
    BeginMirrors(db, b.units, false);
    BeginCounts(db, b.units);
    assert start.fallback.None?;
    hide PartnerStage, UnitStage, Mirrors, ImportPartners, Begin, PartnerCode, CodeOf, Index;
    PartnersStaged(live, db, b, start, b.partners);
    NoFallbackYet(live, start, b.partners);
    PartnersMirror(live, start, b.partners, false);
    UnitsBegin(live, db, b, ImportPartners(live, start, b.partners));
  }

  lemma CountsBalance(live: Mode, db: Db, b: Bundle)
    requires live.Real?
    ensures Balanced(db, ImportBundle(live, db, b))
  {
    hide ImportPartners, ImportUnits, ImportEquipments, UnitCodes, Index, ResolvedDuplicates;
    var codes, partnersDone := UnitCodes(b.units), ImportPartners(live, Begin(db, b.units), b.partners);
    PartnersBalanced(live, db, Begin(db, b.units), b.partners);
    UnitsBalanced(live, codes, db, ReadFallback(partnersDone), b.units);
    EquipmentsBalanced(live, db, ImportUnits(live, codes, ReadFallback(partnersDone), b.units), b.equipments);
  }

  /**
   Every row a real run adds is one of these, as many as it reports, and a run that ends well leaves out nothing it
   has a place for.
   */
  lemma ImportMeans(live: Mode, db: Db, b: Bundle)
    requires live.Real?
    ensures var t := ImportBundle(live, db, b);
            WrittenAs(live, db, b, t.db) && Balanced(db, t) && (t.ok ==> AllWritten(db, b, t.db))
  {
    CountsBalance(live, db, b);
    var ready := ReadFallback(ImportPartners(live, Begin(db, b.units), b.partners));
    var unitsDone := ImportUnits(live, UnitCodes(b.units), ready, b.units);
    hide UnitStage, EquipmentStage, WrittenAs, AllWritten, Balanced, ImportPartners, ImportUnits, ImportEquipments,
         UnitCodes, UnitCode, Begin, TagOf, HasHome;
    PartnersDone(live, db, b);
    UnitsStaged(live, db, b, ready, b.units);
    if unitsDone.ok {
      EquipmentsBegin(live, db, b, unitsDone);
      EquipmentsStaged(live, db, b, unitsDone, b.equipments);
      EquipmentStageAs(live, db, b, ImportBundle(live, db, b));
    } else {
      UnitStageAs(live, db, b, unitsDone);
      FailedEquipments(live, unitsDone, b.equipments);
    }
  }
}
