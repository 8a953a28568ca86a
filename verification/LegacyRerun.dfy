/**
 Importing the same bundle again: when the second run succeeds, and that it then changes nothing.
 */
module LegacyRerun {
  import opened LegacyCodes
  import opened LegacyImport
  import opened LegacyReport
  import opened Options
  import opened Text

  // ---------- the maps mirror the tables during a real run ----------

  lemma {:induction false} IndexHas<D>(rows: seq<Row<D>>, code: string)
    requires HasCode(rows, code) && IsClean(code)
    ensures code in Index(rows)
  {
    hide IsClean;
    var last := |rows| - 1;
    CleanedAgain(code, rows[last].id);
    if rows[last].code != code {
      var i :| 0 <= i < |rows| && rows[i].code == code;
      assert rows[..last][i].code == code;
      IndexHas(rows[..last], code);
    }
  }

  lemma IndexAppend<D>(rows: seq<Row<D>>, row: Row<D>)
    ensures Index(rows + [row]) == Index(rows)[KeyOf(row) := Ref(row.id, row.code)]
    ensures IsClean(row.code) ==> KeyOf(row) == row.code
  {
    hide IsClean;
    if IsClean(row.code) {
      CleanedAgain(row.code, row.id);
    }
    assert (rows + [row])[..|rows|] == rows;
  }

  /**
   Every known code is one that reading the table again would give, or at least stands in the table.
   While all created codes are clean, nothing in the table is unknown.
   */
  ghost predicate Held<D>(known: map<string, Ref>, rows: seq<Row<D>>, tidy: bool) {
    && (forall k :: k in known ==> k in Index(rows) || HasCode(rows, k))
    && (tidy ==> forall k :: k in Index(rows) ==> k in known)
  }

  ghost predicate Mirrors(s: State, tidy: bool) {
    && s.partnersByCode.Keys == Index(s.db.partners).Keys
    && Held(s.unitsByCode, s.db.units, tidy)
    && Held(s.equipmentsByTag, s.db.equipments, tidy)
  }

  /** The fallback partner was looked up after the partner loop. */
  ghost predicate FallbackRead(s: State) {
    s.fallback.None? ==> NO_PARTNER !in s.partnersByCode
  }

  lemma HeldAfterInsert<D>(known: map<string, Ref>, rows: seq<Row<D>>, row: Row<D>, ref: Ref, tidy: bool)
    requires Held(known, rows, tidy) && (tidy ==> IsClean(row.code))
    ensures Held(known[row.code := ref], rows + [row], tidy)
  {
    hide IsClean, Index, KeyOf;
    IndexAppend(rows, row);
    var all := rows + [row];
    forall k | k in known[row.code := ref] ensures k in Index(all) || HasCode(all, k) {
      if k == row.code {
        assert all[|rows|].code == k;
      } else if HasCode(rows, k) {
        var i :| 0 <= i < |rows| && rows[i].code == k;
        assert all[i].code == k;
      }
    }
  }

  lemma UnknownIsFree<D>(known: map<string, Ref>, rows: seq<Row<D>>, code: string)
    requires Held(known, rows, true) && IsClean(code) && code !in known
    ensures !HasCode(rows, code)
  {
    hide IsClean, Index, HasCode;
    if HasCode(rows, code) {
      IndexHas(rows, code);
    }
  }

  lemma CreatePartnerMirrors(live: Mode, s: State, code: string, name: string, id: string, tidy: bool)
    requires live.Real? && s.ok && Mirrors(s, tidy) && IsClean(code) && code !in s.partnersByCode
    ensures var t := CreatePartner(live, s, code, name, id);
            t.ok && Mirrors(t, tidy) && code in t.partnersByCode
  {
    hide IsClean, Index, HasCode, Held, KeyOf;
    if HasCode(s.db.partners, code) {
      IndexHas(s.db.partners, code);
    }
    IndexAppend(s.db.partners, Row(id, code, PartnerData(name)));
  }

  lemma ConstantsClean()
    ensures IsClean(NO_PARTNER) && IsClean(STOCK_UNIT) && IsClean(STARLINK_PARTNER)
  {
  }

  lemma CleanedIsClean(code: string)
    ensures IsClean(CleanCode(code, NO_PARTNER))
  {
    hide Core, IsClean;
    ConstantsClean();
    CoreIsClean(if code != "" then code else NO_PARTNER);
  }

  lemma EnsurePartnerMirrors(live: Mode, s: State, code: string, name: string, tidy: bool)
    requires live.Real? && s.ok && Mirrors(s, tidy)
    ensures EnsurePartner(live, s, code, name).ok && Mirrors(EnsurePartner(live, s, code, name), tidy)
  {
    hide CleanCode, IsClean, CreatePartner, CleanText, PartnerId, Mirrors;
    var clean := CleanCode(code, NO_PARTNER);
    CleanedIsClean(code);
    if clean !in s.partnersByCode {
      CreatePartnerMirrors(live, s, clean, CleanText(name, clean), PartnerId(live, clean), tidy);
    }
  }

  lemma MirrorsBeyondStats(s: State, tidy: bool, stats: Stats, asked: bool)
    requires Mirrors(s, tidy)
    ensures Mirrors(s.(stats := stats), tidy) && Mirrors(s.(fallbackUsed := asked), tidy)
  {
  }

  lemma PartnerStepMirrors(live: Mode, s: State, p: LegacyPartner, tidy: bool)
    requires live.Real? && s.ok && Mirrors(s, tidy)
    ensures PartnerStep(live, s, p).ok && Mirrors(PartnerStep(live, s, p), tidy)
  {
    hide EnsurePartner, PartnerCode, Mirrors;
    MirrorsBeyondStats(s, tidy, PartnerStep(live, s, p).stats, false);
    EnsurePartnerMirrors(live, s, PartnerCode(p), p.name, tidy);
  }

  /** No real run fails in its partner loop. */
  lemma {:induction false} PartnersMirror(live: Mode, s: State, ps: seq<LegacyPartner>, tidy: bool)
    requires live.Real? && s.ok && Mirrors(s, tidy)
    ensures ImportPartners(live, s, ps).ok && Mirrors(ImportPartners(live, s, ps), tidy)
    decreases |ps|
  {
    hide PartnerStep, Mirrors;
    if ps != [] {
      PartnerStepMirrors(live, s, ps[0], tidy);
      PartnersMirror(live, PartnerStep(live, s, ps[0]), ps[1..], tidy);
    }
  }

  lemma EnsureFallbackMirrors(live: Mode, s: State, tidy: bool)
    requires live.Real? && s.ok && Mirrors(s, tidy) && FallbackRead(s)
    ensures var t := EnsureFallback(live, s); t.ok && Mirrors(t, tidy) && FallbackRead(t)
  {
    hide CreatePartner, PartnerId, Mirrors, IsClean;
    var asked := s.(fallbackUsed := true);
    MirrorsBeyondStats(s, tidy, s.stats, true);
    ConstantsClean();
    if s.fallback.None? {
      CreatePartnerMirrors(live, asked, NO_PARTNER, "Legado sem parceiro identificado", PartnerId(live, NO_PARTNER),
                           tidy);
      MirrorsBeyondFallback(CreatePartner(live, asked, NO_PARTNER, "Legado sem parceiro identificado",
                                          PartnerId(live, NO_PARTNER)),
                            tidy, Some(Ref(PartnerId(live, NO_PARTNER), NO_PARTNER)));
    }
  }

  lemma MirrorsBeyondFallback(s: State, tidy: bool, partner: Option<Ref>)
    requires Mirrors(s, tidy)
    ensures Mirrors(s.(fallback := partner), tidy)
  {
  }

  lemma CreateUnitMirrors(live: Mode, s: State, code: string, data: UnitData, tidy: bool)
    requires live.Real? && s.ok && Mirrors(s, tidy) && code !in s.unitsByCode && (tidy ==> IsClean(code))
    ensures var t := CreateUnit(live, s, code, data);
            && (tidy ==> t.ok) && (t.ok ==> Mirrors(t, tidy))
            && t.partnersByCode == s.partnersByCode && t.fallback == s.fallback
  {
    hide IsClean, Index, HasCode, Held, KeyOf, UnitId;
    if tidy {
      UnknownIsFree(s.unitsByCode, s.db.units, code);
    }
    HeldAfterInsert(s.unitsByCode, s.db.units, Row(UnitId(live, code), code, data), Ref(UnitId(live, code), code),
                    tidy);
  }

  lemma CreateEquipmentMirrors(live: Mode, s: State, tag: string, data: EquipmentData, tidy: bool)
    requires live.Real? && s.ok && Mirrors(s, tidy) && tag !in s.equipmentsByTag && (tidy ==> IsClean(tag))
    ensures var t := CreateEquipment(live, s, tag, data);
            && (tidy ==> t.ok) && (t.ok ==> Mirrors(t, tidy))
  {
    hide IsClean, Index, HasCode, Held, KeyOf, EquipmentId;
    if tidy {
      UnknownIsFree(s.equipmentsByTag, s.db.equipments, tag);
    }
    HeldAfterInsert(s.equipmentsByTag, s.db.equipments, Row(EquipmentId(live, tag), tag, data),
                    Ref(EquipmentId(live, tag), tag), tidy);
  }

  lemma BindKeyMirrors(s: State, key: string, code: string, tidy: bool)
    requires Mirrors(s, tidy) && code in s.unitsByCode
    ensures Mirrors(BindKey(s, key, code), tidy) && BindKey(s, key, code).fallback == s.fallback
    ensures BindKey(s, key, code).partnersByCode == s.partnersByCode && BindKey(s, key, code).ok == s.ok
  {
  }

  lemma AttachUnitMirrors(live: Mode, s: State, u: LegacyUnit, code: string, partner: Ref, tidy: bool)
    requires live.Real? && s.ok && Mirrors(s, tidy) && FallbackRead(s) && code !in s.unitsByCode
        && (tidy ==> IsClean(code))
    ensures var t := AttachUnit(live, s, u, code, partner);
            (tidy ==> t.ok) && (t.ok ==> Mirrors(t, tidy) && FallbackRead(t))
  {
    hide CleanText, OrNull, CreateUnit, Mirrors, IsClean, BindKey;
    var stats := s.stats.(unitsWithoutPartner := s.stats.unitsWithoutPartner + 1);
    MirrorsBeyondStats(s, tidy, stats, false);
    var counted := if partner.code == NO_PARTNER then s.(stats := stats) else s;
    var data := UnitData(CleanText(u.name, code), OrNull(CleanText(u.city, "")), OrNull(CleanText(u.state, "")),
                         partner.id);
    CreateUnitMirrors(live, counted, code, data, tidy);
    var t := CreateUnit(live, counted, code, data);
    if t.ok && code in t.unitsByCode {
      BindKeyMirrors(t, u.key, code, tidy);
    }
    CreateUnitFacts(live, counted, code, data);
    BindKeyStill(t, u.key, code);
  }

  lemma BindKeyStill(s: State, key: string, code: string)
    ensures code in s.unitsByCode ==> BindKey(s, key, code).ok == s.ok
  {
  }

  lemma UnitStepMirrors(live: Mode, codes: map<string, string>, s: State, u: LegacyUnit, tidy: bool)
    requires live.Real? && s.ok && Mirrors(s, tidy) && FallbackRead(s) && (tidy ==> IsClean(UnitCode(codes, u)))
    ensures var t := UnitStep(live, codes, s, u);
            (tidy ==> t.ok) && (t.ok ==> Mirrors(t, tidy) && FallbackRead(t))
  {
    hide UnitCode, UnitPartnerCode, EnsureFallback, AttachUnit, Mirrors, IsClean, BindKey;
    var code := UnitCode(codes, u);
    if code in s.unitsByCode {
      BindKeyMirrors(s, u.key, code, tidy);
      MirrorsBeyondStats(BindKey(s, u.key, code), tidy, s.stats.(unitsSkipped := s.stats.unitsSkipped + 1), false);
      BindKeyStill(s, u.key, code);
    } else if UnitPartnerCode(u) in s.partnersByCode {
      AttachUnitMirrors(live, s, u, code, s.partnersByCode[UnitPartnerCode(u)], tidy);
    } else {
      EnsureFallbackMirrors(live, s, tidy);
      EnsureFallbackFacts(live, s);
      var ready := EnsureFallback(live, s);
      AttachUnitMirrors(live, ready, u, code, ready.fallback.value, tidy);
    }
  }

  lemma {:induction false} UnitsMirror(live: Mode, codes: map<string, string>, s: State, us: seq<LegacyUnit>,
                                       tidy: bool)
    requires live.Real? && s.ok && Mirrors(s, tidy) && FallbackRead(s)
    requires tidy ==> forall i :: 0 <= i < |us| ==> IsClean(UnitCode(codes, us[i]))
    ensures var t := ImportUnits(live, codes, s, us);
            (tidy ==> t.ok) && (t.ok ==> Mirrors(t, tidy))
    decreases |us|
  {
    hide UnitStep, UnitCode, Mirrors, IsClean, FallbackRead;
    if us != [] {
      var next := UnitStep(live, codes, s, us[0]);
      UnitStepMirrors(live, codes, s, us[0], tidy);
      FailedUnits(live, codes, next, us[1..]);
      if next.ok {
        UnitsMirror(live, codes, next, us[1..], tidy);
      }
    }
  }

  lemma EnsureStockUnitMirrors(live: Mode, s: State, tidy: bool)
    requires live.Real? && s.ok && Mirrors(s, tidy)
    ensures var t := EnsureStockUnit(live, s);
            (tidy ==> t.ok) && (t.ok ==> Mirrors(t, tidy))
  {
    hide EnsurePartner, CreateUnit, CleanCode, Mirrors, IsClean;
    EnsurePartnerMirrors(live, s, STARLINK_PARTNER, "Starlink", tidy);
    var ready := EnsurePartner(live, s, STARLINK_PARTNER, "Starlink");
    if STOCK_UNIT !in ready.unitsByCode {
      var stats := ready.stats.(stockUnitCreated := true);
      MirrorsBeyondStats(ready, tidy, stats, false);
      ConstantsClean();
      CreateUnitMirrors(live, ready.(stats := stats), STOCK_UNIT,
                        UnitData("Estoque legado de Starlinks", None, None,
                                 ready.partnersByCode[CleanCode(STARLINK_PARTNER, NO_PARTNER)].id), tidy);
    }
  }

  lemma AttachEquipmentMirrors(live: Mode, s: State, e: LegacyEquipment, unit: Ref, tidy: bool)
    requires live.Real? && s.ok && Mirrors(s, tidy) && TagOf(e) !in s.equipmentsByTag && (tidy ==> IsClean(TagOf(e)))
    ensures var t := AttachEquipment(live, s, e, unit);
            (tidy ==> t.ok) && (t.ok ==> Mirrors(t, tidy))
  {
    hide TagOf, CleanText, OrNull, Lower, CreateEquipment, Mirrors, IsClean;
    CreateEquipmentMirrors(live, s, TagOf(e),
                           EquipmentData(CleanText(e.name, TagOf(e)), Lower(CleanText(e.kind, "legacy")),
                                         OrNull(CleanText(e.serialNumber, "")), Lower(CleanText(e.status, "active")),
                                             unit.id), tidy);
  }

  lemma EquipmentStepMirrors(live: Mode, s: State, e: LegacyEquipment, tidy: bool)
    requires live.Real? && s.ok && StockKnown(s) && Mirrors(s, tidy) && (tidy ==> IsClean(TagOf(e)))
    ensures var t := EquipmentStep(live, s, e);
            (tidy ==> t.ok) && (t.ok ==> Mirrors(t, tidy))
  {
    hide TagOf, EnsureStockUnit, AttachEquipment, UnitFor, Mirrors, IsClean, StockKnown;
    MirrorsBeyondStats(s, tidy, EquipmentStep(live, s, e).stats, false);
    if TagOf(e) !in s.equipmentsByTag {
      if UnitFor(s, e).Some? {
        AttachEquipmentMirrors(live, s, e, UnitFor(s, e).value, tidy);
      } else if e.source == "starlinks" {
        EnsureStockUnitMirrors(live, s, tidy);
        EnsureStockUnitFacts(live, s);
        var ready := EnsureStockUnit(live, s);
        if ready.ok {
          AttachEquipmentMirrors(live, ready, e, ready.unitsByCode[STOCK_UNIT], tidy);
        }
      }
    }
  }

  lemma {:induction false} EquipmentsMirror(live: Mode, s: State, es: seq<LegacyEquipment>, tidy: bool)
    requires live.Real? && s.ok && StockKnown(s) && Mirrors(s, tidy)
    requires tidy ==> forall i :: 0 <= i < |es| ==> IsClean(TagOf(es[i]))
    ensures var t := ImportEquipments(live, s, es);
            (tidy ==> t.ok) && (t.ok ==> Mirrors(t, tidy))
    decreases |es|
  {
    hide EquipmentStep, TagOf, Mirrors, IsClean, StockKnown;
    if es != [] {
      var next := EquipmentStep(live, s, es[0]);
      EquipmentStepMirrors(live, s, es[0], tidy);
      FailedEquipments(live, next, es[1..]);
      if next.ok {
        EquipmentStepCounts(live, s, es[0]);
        EquipmentsMirror(live, next, es[1..], tidy);
      }
    }
  }

  /** Unit codes and equipment tags that cleaning leaves as they are. */
  ghost predicate Tidy(b: Bundle) {
    && (forall i :: 0 <= i < |b.units| ==> IsClean(BaseOf(b.units[i])))
    && (forall i :: 0 <= i < |b.equipments| ==> IsClean(TagOf(b.equipments[i])))
  }

  lemma TidyCodes(b: Bundle)
    requires Tidy(b)
    ensures forall i :: 0 <= i < |b.units| ==> IsClean(UnitCode(UnitCodes(b.units), b.units[i]))
  {
    hide IsClean, BaseOf, UnitCodes;
    forall i | 0 <= i < |b.units| ensures IsClean(UnitCode(UnitCodes(b.units), b.units[i])) {
      if b.units[i].key in UnitCodes(b.units) {
        UnitCodesClean(b.units, b.units[i].key);
      }
    }
  }

  lemma BeginMirrors(db: Db, units: seq<LegacyUnit>, tidy: bool)
    ensures Mirrors(Begin(db, units), tidy)
  {
    hide Index, UnitCodes, ResolvedDuplicates, HasCode;
  }

  lemma ReadFallbackMirrors(s: State, tidy: bool)
    requires Mirrors(s, tidy)
    ensures Mirrors(ReadFallback(s), tidy) && FallbackRead(ReadFallback(s))
  {
    hide Held, Index;
  }

  /** A successful real run leaves maps that mirror the tables; a run over a tidy bundle always succeeds. */
  lemma RunMirrors(live: Mode, db: Db, b: Bundle, tidy: bool)
    requires live.Real? && (tidy ==> Tidy(b))
    ensures var t := ImportBundle(live, db, b);
            (tidy ==> t.ok) && (t.ok ==> Mirrors(t, tidy))
  {
    var s, codes := Begin(db, b.units), UnitCodes(b.units);
    var units := ReadFallback(ImportPartners(live, s, b.partners));
    var equipments := ImportUnits(live, codes, units, b.units);
    hide Begin, UnitCodes, ImportPartners, ReadFallback, ImportUnits, ImportEquipments, Mirrors, FallbackRead,
        PartnersDone, IsClean,
         UnitCode, TagOf, BaseOf;
    BeginCounts(db, b.units);
    BeginMirrors(db, b.units, tidy);
    PartnersMirror(live, s, b.partners, tidy);
    ReadFallbackMirrors(ImportPartners(live, s, b.partners), tidy);
    ReadFallbackFacts(ImportPartners(live, s, b.partners));
    if tidy {
      TidyCodes(b);
    }
    UnitsMirror(live, codes, units, b.units, tidy);
    FailedEquipments(live, equipments, b.equipments);
    if equipments.ok {
      PartnersStage(live, db, b);
      UnitsStageStock(live, b, codes, units);
      EquipmentsMirror(live, equipments, b.equipments, tidy);
    }
  }

  lemma UnitsStageStock(live: Mode, b: Bundle, codes: map<string, string>, s: State)
    requires PartnersDone(b, s) && ImportUnits(live, codes, s, b.units).ok
    ensures StockKnown(ImportUnits(live, codes, s, b.units))
  {
    hide ImportUnits, PartnersDone, Closed;
    UnitsAfterPartners(live, b, codes, s);
  }

  // ---------- running again ----------

  lemma {:induction false} RepeatPartners(mode: Mode, s: State, ps: seq<LegacyPartner>)
    requires s.ok && forall i :: 0 <= i < |ps| ==> PartnerKnown(s.partnersByCode, ps[i])
    ensures var t := ImportPartners(mode, s, ps);
            t == s.(stats := s.stats.(partnersSkipped := t.stats.partnersSkipped))
    decreases |ps|
  {
    hide PartnerCode, CleanCode;
    if ps != [] {
      assert PartnerKnown(s.partnersByCode, ps[0]);
      var next := PartnerStep(mode, s, ps[0]);
      assert next == s.(stats := s.stats.(partnersSkipped := next.stats.partnersSkipped));
      forall i | 0 <= i < |ps[1..]| ensures PartnerKnown(next.partnersByCode, ps[1..][i]) {
        assert ps[1..][i] == ps[i + 1];
      }
      RepeatPartners(mode, next, ps[1..]);
    }
  }

  lemma {:induction false} RepeatUnits(mode: Mode, codes: map<string, string>, s: State, us: seq<LegacyUnit>)
    requires s.ok && forall i :: 0 <= i < |us| ==> UnitCode(codes, us[i]) in s.unitsByCode
    ensures var t := ImportUnits(mode, codes, s, us);
            t == s.(unitByLegacyKey := t.unitByLegacyKey, stats := s.stats.(unitsSkipped := t.stats.unitsSkipped))
    decreases |us|
  {
    hide UnitCode, UnitPartnerCode, AttachUnit, EnsureFallback;
    if us != [] {
      var next := UnitStep(mode, codes, s, us[0]);
      assert next == s.(unitByLegacyKey := next.unitByLegacyKey,
          stats := s.stats.(unitsSkipped := next.stats.unitsSkipped));
      RepeatUnits(mode, codes, next, us[1..]);
    }
  }

  lemma {:induction false} RepeatEquipments(mode: Mode, s: State, es: seq<LegacyEquipment>)
    requires s.ok && forall i :: 0 <= i < |es| ==> TagOf(es[i]) in s.equipmentsByTag
    ensures var t := ImportEquipments(mode, s, es);
            t == s.(stats := s.stats.(equipmentsSkipped := t.stats.equipmentsSkipped))
    decreases |es|
  {
    hide TagOf, UnitFor, AttachEquipment, EnsureStockUnit;
    if es != [] {
      var next := EquipmentStep(mode, s, es[0]);
      assert next == s.(stats := s.stats.(equipmentsSkipped := next.stats.equipmentsSkipped));
      RepeatEquipments(mode, next, es[1..]);
    }
  }

  /** Reading the tables finds every partner, or every unit and equipment, of the bundle. */
  ghost predicate PartnersRecorded(b: Bundle, db: Db) {
    forall i :: 0 <= i < |b.partners| ==> PartnerKnown(Index(db.partners), b.partners[i])
  }

  ghost predicate Recorded(b: Bundle, db: Db) {
    && (forall i :: 0 <= i < |b.units| ==> UnitCode(UnitCodes(b.units), b.units[i]) in Index(db.units))
    && (forall i :: 0 <= i < |b.equipments| ==> TagOf(b.equipments[i]) in Index(db.equipments))
  }

  lemma BeginReads(db: Db, units: seq<LegacyUnit>)
    ensures var s := Begin(db, units);
            s.partnersByCode == Index(db.partners) && s.unitsByCode == Index(db.units)
                && s.equipmentsByTag == Index(db.equipments)
            && s.db == db
  {
    hide Index, UnitCodes, ResolvedDuplicates;
  }

  /** The report of a run that created nothing. */
  ghost predicate NothingCreated(stats: Stats) {
    && stats.partnersCreated == 0 && stats.unitsCreated == 0 && stats.equipmentsCreated == 0
    && !stats.stockUnitCreated && stats.equipmentsWithoutUnit == 0
  }

  /** Importing a bundle whose rows are all recorded changes nothing, in either mode. */
  lemma RecordedIsNoOp(mode: Mode, db: Db, b: Bundle)
    requires PartnersRecorded(b, db) && Recorded(b, db)
    ensures var t := ImportBundle(mode, db, b);
            t.ok && t.db == db && NothingCreated(t.stats) && !t.fallbackUsed
  {
    var s, codes := Begin(db, b.units), UnitCodes(b.units);
    var read := ReadFallback(ImportPartners(mode, s, b.partners));
    hide Begin, UnitCodes, ImportPartners, ReadFallback, ImportUnits, ImportEquipments, Index, PartnerKnown,
        UnitCode, TagOf, Grows;
    BeginCounts(db, b.units);
    BeginReads(db, b.units);
    RepeatPartners(mode, s, b.partners);
    ReadFallbackFacts(ImportPartners(mode, s, b.partners));
    RepeatUnits(mode, codes, read, b.units);
    RepeatEquipments(mode, ImportUnits(mode, codes, read, b.units), b.equipments);
  }

  // ---------- what stops a second run ----------

  /** A code the table holds but the map does not: the next attempt to create it violates the unique index. */
  ghost predicate UnitBlocked(s: State, code: string) {
    HasCode(s.db.units, code) && code !in s.unitsByCode
  }

  ghost predicate TagBlocked(s: State, tag: string) {
    HasCode(s.db.equipments, tag) && tag !in s.equipmentsByTag
  }

  /** Two points of a run whose unit tables or equipment tables are the same. */
  ghost predicate SameUnits(s: State, t: State) {
    s.db.units == t.db.units && s.unitsByCode == t.unitsByCode
  }

  ghost predicate SameEquipments(s: State, t: State) {
    s.db.equipments == t.db.equipments && s.equipmentsByTag == t.equipmentsByTag
  }

  lemma CreatePartnerFrame(mode: Mode, s: State, code: string, name: string, id: string)
    ensures SameUnits(s, CreatePartner(mode, s, code, name, id))
        && SameEquipments(s, CreatePartner(mode, s, code, name, id))
    ensures CreatePartner(mode, s, code, name, id).fallback == s.fallback
  {
    hide HasCode;
  }

  lemma EnsurePartnerFrame(mode: Mode, s: State, code: string, name: string)
    ensures SameUnits(s, EnsurePartner(mode, s, code, name)) && SameEquipments(s, EnsurePartner(mode, s, code, name))
  {
    hide CleanCode, CleanText, PartnerId, CreatePartner;
    var clean := CleanCode(code, NO_PARTNER);
    CreatePartnerFrame(mode, s, clean, CleanText(name, clean), PartnerId(mode, clean));
  }

  lemma {:induction false} PartnersFrame(mode: Mode, s: State, ps: seq<LegacyPartner>)
    ensures SameUnits(s, ImportPartners(mode, s, ps)) && SameEquipments(s, ImportPartners(mode, s, ps))
    decreases |ps|
  {
    hide EnsurePartner, PartnerCode;
    if ps != [] {
      EnsurePartnerFrame(mode, s, PartnerCode(ps[0]), ps[0].name);
      PartnersFrame(mode, PartnerStep(mode, s, ps[0]), ps[1..]);
    }
  }

  lemma EnsureFallbackFrame(mode: Mode, s: State)
    ensures SameUnits(s, EnsureFallback(mode, s)) && SameEquipments(s, EnsureFallback(mode, s))
  {
    hide PartnerId, CreatePartner;
    var id := if mode.DryRun? then "dry-run-fallback-partner" else PartnerId(mode, NO_PARTNER);
    CreatePartnerFrame(mode, s.(fallbackUsed := true), NO_PARTNER, "Legado sem parceiro identificado", id);
  }

  /** A blocked code stays blocked, and attaching a unit under it fails. */
  lemma CreateUnitBlocked(live: Mode, s: State, code: string, data: UnitData, blocked: string)
    requires live.Real?
    ensures var t := CreateUnit(live, s, code, data);
            && SameEquipments(s, t)
            && (UnitBlocked(s, blocked) && t.ok && s.ok ==> UnitBlocked(t, blocked) && code != blocked)
  {
    hide HasCode, UnitId;
    HasCodeGrows(s.db.units, Row(UnitId(live, code), code, data), blocked);
  }

  lemma HasCodeGrows<D>(rows: seq<Row<D>>, row: Row<D>, code: string)
    ensures HasCode(rows, code) ==> HasCode(rows + [row], code)
  {
    if HasCode(rows, code) {
      var i :| 0 <= i < |rows| && rows[i].code == code;
      assert (rows + [row])[i].code == code;
    }
  }

  lemma AttachUnitBlocked(live: Mode, s: State, u: LegacyUnit, code: string, partner: Ref, blocked: string)
    requires live.Real? && s.ok
    ensures var t := AttachUnit(live, s, u, code, partner);
            && SameEquipments(s, t)
            && (UnitBlocked(s, blocked) && t.ok ==> UnitBlocked(t, blocked) && code != blocked)
  {
    hide CleanText, OrNull, CreateUnit, HasCode;
    var counted := if partner.code == NO_PARTNER
                   then s.(stats := s.stats.(unitsWithoutPartner := s.stats.unitsWithoutPartner + 1)) else s;
    CreateUnitBlocked(live, counted, code,
                      UnitData(CleanText(u.name, code), OrNull(CleanText(u.city, "")),
                               OrNull(CleanText(u.state, "")), partner.id),
                      blocked);
  }

  lemma UnitStepBlocked(live: Mode, codes: map<string, string>, s: State, u: LegacyUnit, blocked: string)
    requires live.Real?
    ensures var t := UnitStep(live, codes, s, u);
            && SameEquipments(s, t)
            && (UnitBlocked(s, blocked) && t.ok ==> UnitBlocked(t, blocked) && UnitCode(codes, u) != blocked)
  {
    hide UnitCode, UnitPartnerCode, EnsureFallback, AttachUnit, HasCode;
    var code := UnitCode(codes, u);
    if s.ok && code !in s.unitsByCode {
      if UnitPartnerCode(u) in s.partnersByCode {
        AttachUnitBlocked(live, s, u, code, s.partnersByCode[UnitPartnerCode(u)], blocked);
      } else {
        EnsureFallbackFrame(live, s);
        var ready := EnsureFallback(live, s);
        if ready.ok {
          AttachUnitBlocked(live, ready, u, code, ready.fallback.value, blocked);
        }
      }
    }
  }

  lemma {:induction false} UnitsBlocked(live: Mode, codes: map<string, string>, s: State, us: seq<LegacyUnit>,
                                        blocked: string)
    requires live.Real?
    ensures var t := ImportUnits(live, codes, s, us);
            && SameEquipments(s, t)
            && (UnitBlocked(s, blocked) && t.ok ==> forall i :: 0 <= i < |us| ==> UnitCode(codes, us[i]) != blocked)
    decreases |us|
  {
    hide UnitStep, UnitCode, UnitBlocked;
    if us != [] {
      var next := UnitStep(live, codes, s, us[0]);
      UnitStepBlocked(live, codes, s, us[0], blocked);
      FailedUnits(live, codes, next, us[1..]);
      UnitsBlocked(live, codes, next, us[1..], blocked);
      if UnitBlocked(s, blocked) && ImportUnits(live, codes, s, us).ok {
        forall i | 0 <= i < |us| ensures UnitCode(codes, us[i]) != blocked {
          if i > 0 {
            assert us[i] == us[1..][i - 1];
          }
        }
      }
    }
  }

  lemma EnsureStockUnitFrame(live: Mode, s: State)
    requires live.Real?
    ensures SameEquipments(s, EnsureStockUnit(live, s))
  {
    hide EnsurePartner, CreateUnit, CleanCode;
    EnsurePartnerFrame(live, s, STARLINK_PARTNER, "Starlink");
    var ready := EnsurePartner(live, s, STARLINK_PARTNER, "Starlink");
    if ready.ok && STOCK_UNIT !in ready.unitsByCode {
      CreateUnitBlocked(live, ready.(stats := ready.stats.(stockUnitCreated := true)), STOCK_UNIT,
                        UnitData("Estoque legado de Starlinks", None, None,
                                 ready.partnersByCode[CleanCode(STARLINK_PARTNER, NO_PARTNER)].id), "");
    }
  }

  lemma AttachEquipmentBlocked(live: Mode, s: State, e: LegacyEquipment, unit: Ref, blocked: string)
    requires live.Real? && TagBlocked(s, blocked) && s.ok && AttachEquipment(live, s, e, unit).ok
    ensures TagBlocked(AttachEquipment(live, s, e, unit), blocked) && TagOf(e) != blocked
  {
    hide HasCode, EquipmentId, TagOf, CleanText, OrNull, Lower;
    var t := AttachEquipment(live, s, e, unit);
    var row := t.db.equipments[|s.db.equipments|];
    HasCodeGrows(s.db.equipments, row, blocked);
  }

  lemma EquipmentStepBlocked(live: Mode, s: State, e: LegacyEquipment, blocked: string)
    requires live.Real? && TagBlocked(s, blocked) && EquipmentStep(live, s, e).ok
    ensures TagBlocked(EquipmentStep(live, s, e), blocked)
    ensures TagOf(e) == blocked ==>
              EquipmentStep(live, s, e).stats.equipmentsWithoutUnit == s.stats.equipmentsWithoutUnit + 1
  {
    hide TagOf, EnsureStockUnit, AttachEquipment, UnitFor, HasCode;
    if s.ok && TagOf(e) !in s.equipmentsByTag {
      if UnitFor(s, e).Some? {
        AttachEquipmentBlocked(live, s, e, UnitFor(s, e).value, blocked);
      } else if e.source == "starlinks" {
        EnsureStockUnitFrame(live, s);
        var ready := EnsureStockUnit(live, s);
        if ready.ok {
          AttachEquipmentBlocked(live, ready, e, ready.unitsByCode[STOCK_UNIT], blocked);
        }
      }
    }
  }

  lemma {:induction false} EquipmentsBlocked(live: Mode, s: State, es: seq<LegacyEquipment>, blocked: string, i: nat)
    requires live.Real? && StockKnown(s) && TagBlocked(s, blocked) && ImportEquipments(live, s, es).ok
    requires i < |es| && TagOf(es[i]) == blocked
    ensures ImportEquipments(live, s, es).stats.equipmentsWithoutUnit > s.stats.equipmentsWithoutUnit
    decreases |es|
  {
    hide EquipmentStep, TagOf, TagBlocked, StockKnown, Equipments;
    var next := EquipmentStep(live, s, es[0]);
    FailedEquipments(live, s, es);
    FailedEquipments(live, next, es[1..]);
    EquipmentStepBlocked(live, s, es[0], blocked);
    EquipmentStepGrows(live, s, es[0]);
    EquipmentStepCounts(live, s, es[0]);
    EquipmentsLoop(live, next, es[1..]);
    if i > 0 {
      EquipmentsBlocked(live, next, es[1..], blocked, i - 1);
    }
  }

  /** The run succeeded and left no equipment out. */
  ghost predicate Complete(t: State) {
    t.ok && t.stats.equipmentsWithoutUnit == 0
  }

  /** What a complete run knows at its end. */
  lemma CompleteKnows(mode: Mode, db: Db, b: Bundle)
    requires ImportBundle(mode, db, b).ok
    ensures var t := ImportBundle(mode, db, b);
            && (forall i :: 0 <= i < |b.partners| ==> PartnerKnown(t.partnersByCode, b.partners[i]))
            && (forall i :: 0 <= i < |b.units| ==> UnitCode(UnitCodes(b.units), b.units[i]) in t.unitsByCode)
            && (Complete(t) ==> forall i :: 0 <= i < |b.equipments| ==> TagOf(b.equipments[i]) in t.equipmentsByTag)
  {
    hide ImportBundle, UnitCodes, ImportEquipments, PartnerKnown, UnitCode, TagOf, Units, Equipments;
    var s := UnitsStage(mode, db, b);
    EquipmentsLoop(mode, s, b.equipments);
    EquipmentsPlaced(mode, s, b.equipments);
    KnownAllStay(b.partners, s, ImportBundle(mode, db, b));
  }

  /** After a real run the tables record all partners, and hold every unit code and tag it knows. */
  lemma RunLeavesPartners(live: Mode, db: Db, b: Bundle)
    requires live.Real? && ImportBundle(live, db, b).ok
    ensures PartnersRecorded(b, ImportBundle(live, db, b).db)
  {
    hide ImportBundle, UnitCodes, Held, Index, UnitCode, TagOf;
    RunMirrors(live, db, b, false);
    CompleteKnows(live, db, b);
  }

  /** A stored unit code that rereading the table misses stops every run of a bundle that has it. */
  lemma BlockedStops(live: Mode, db: Db, b: Bundle, i: nat)
    requires live.Real? && i < |b.units|
    requires var code := UnitCode(UnitCodes(b.units), b.units[i]); HasCode(db.units, code) && code !in Index(db.units)
    ensures !ImportBundle(live, db, b).ok
  {
    var code := UnitCode(UnitCodes(b.units), b.units[i]);
    hide ImportBundle, UnitCodes, Index, UnitCode, TagOf, PartnerKnown, Begin, HasCode, ImportPartners, ImportUnits,
        ImportEquipments;
    BeginReads(db, b.units);
    PartnersFrame(live, Begin(db, b.units), b.partners);
    ReadFallbackFacts(ImportPartners(live, Begin(db, b.units), b.partners));
    if ImportBundle(live, db, b).ok {
      var afterPartners, beforeUnits, afterUnits := Stages(live, db, b);
      UnitsBlocked(live, UnitCodes(b.units), beforeUnits, b.units, code);
      assert false;
    }
  }

  /** A unit code of a finished run that rereading the table would miss blocks the next run. */
  lemma MissedUnitStops(live: Mode, db: Db, b: Bundle, i: nat)
    requires live.Real? && ImportBundle(live, db, b).ok && i < |b.units|
    requires UnitCode(UnitCodes(b.units), b.units[i]) !in Index(ImportBundle(live, db, b).db.units)
    ensures !ImportBundle(live, ImportBundle(live, db, b).db, b).ok
  {
    hide ImportBundle, UnitCodes, Index, UnitCode, TagOf, PartnerKnown, HasCode;
    RunMirrors(live, db, b, false);
    CompleteKnows(live, db, b);
    BlockedStops(live, ImportBundle(live, db, b).db, b, i);
  }

  lemma MissedTagStops(live: Mode, db: Db, b: Bundle, i: nat)
    requires live.Real? && Complete(ImportBundle(live, db, b)) && i < |b.equipments|
    requires TagOf(b.equipments[i]) !in Index(ImportBundle(live, db, b).db.equipments)
    ensures !Complete(ImportBundle(live, ImportBundle(live, db, b).db, b))
  {
    var first := ImportBundle(live, db, b);
    var tag := TagOf(b.equipments[i]);
    var second := ImportBundle(live, first.db, b);
    hide ImportBundle, UnitCodes, Index, UnitCode, TagOf, PartnerKnown, Begin, HasCode, ImportPartners, ImportUnits,
        ImportEquipments;
    RunMirrors(live, db, b, false);
    CompleteKnows(live, db, b);
    assert HasCode(first.db.equipments, tag);
    if second.ok {
      var s := BeforeEquipments(live, first.db, b);
      EquipmentsBlocked(live, s, b.equipments, tag, i);
    }
  }

  lemma BeforeEquipments(live: Mode, db: Db, b: Bundle) returns (s: State)
    requires live.Real? && ImportBundle(live, db, b).ok
    ensures ImportBundle(live, db, b) == ImportEquipments(live, s, b.equipments) && StockKnown(s)
    ensures s.db.equipments == db.equipments && s.equipmentsByTag == Index(db.equipments)
        && s.stats.equipmentsWithoutUnit == 0
  {
    var afterPartners, beforeUnits, afterUnits := Stages(live, db, b);
    s := afterUnits;
    hide ImportBundle, UnitCodes, Index, UnitCode, Begin, ImportPartners, ImportUnits, ImportEquipments,
        PartnerKnown, Units, Equipments;
    BeginReads(db, b.units);
    PartnersStage(live, db, b);
    PartnersFrame(live, Begin(db, b.units), b.partners);
    ReadFallbackFacts(afterPartners);
    UnitsBlocked(live, UnitCodes(b.units), beforeUnits, b.units, "");
    UnitsAfterPartners(live, b, UnitCodes(b.units), beforeUnits);
  }

  /**
   After a complete real run of any bundle into any database, a second run is complete exactly when
   rereading the tables finds every unit code and every tag; it then changes nothing.
   */
  lemma RerunIff(live: Mode, db: Db, b: Bundle)
    requires live.Real? && Complete(ImportBundle(live, db, b))
    ensures var first := ImportBundle(live, db, b);
            var second := ImportBundle(live, first.db, b);
            && (Complete(second) <==> Recorded(b, first.db))
            && (Complete(second) ==> second.db == first.db && NothingCreated(second.stats) && !second.fallbackUsed)
  {
    var first := ImportBundle(live, db, b);
    hide ImportBundle, UnitCodes, Index, UnitCode, TagOf;
    RunLeavesPartners(live, db, b);
    if Recorded(b, first.db) {
      RecordedIsNoOp(live, first.db, b);
    } else if i :| 0 <= i < |b.units| && UnitCode(UnitCodes(b.units), b.units[i]) !in Index(first.db.units) {
      MissedUnitStops(live, db, b, i);
    } else {
      var j :| 0 <= j < |b.equipments| && TagOf(b.equipments[j]) !in Index(first.db.equipments);
      MissedTagStops(live, db, b, j);
    }
  }

  /** A tidy bundle can always be imported, into any database, and what it leaves behind is recorded. */
  lemma TidyIsRecorded(live: Mode, db: Db, b: Bundle)
    requires live.Real? && Tidy(b)
    ensures var first := ImportBundle(live, db, b);
            first.ok && (first.stats.equipmentsWithoutUnit == 0 ==> Recorded(b, first.db))
  {
    var first := ImportBundle(live, db, b);
    hide ImportBundle, UnitCodes, Index, UnitCode, TagOf, PartnerKnown, HasCode, IsClean, BaseOf;
    RunMirrors(live, db, b, true);
    CompleteKnows(live, db, b);
    TidyCodes(b);
    forall i | 0 <= i < |b.units| ensures UnitCode(UnitCodes(b.units), b.units[i]) in Index(first.db.units) {
      HeldCleanIsRead(first.unitsByCode, first.db.units, UnitCode(UnitCodes(b.units), b.units[i]));
    }
    if first.stats.equipmentsWithoutUnit == 0 {
      forall i | 0 <= i < |b.equipments| ensures TagOf(b.equipments[i]) in Index(first.db.equipments) {
        HeldCleanIsRead(first.equipmentsByTag, first.db.equipments, TagOf(b.equipments[i]));
      }
    }
  }

  lemma HeldCleanIsRead<D>(known: map<string, Ref>, rows: seq<Row<D>>, code: string)
    requires Held(known, rows, true) && code in known && IsClean(code)
    ensures code in Index(rows)
  {
    hide Index, HasCode, IsClean;
    if code !in Index(rows) {
      IndexHas(rows, code);
    }
  }

  /**
   A tidy, closed bundle goes into any database, and a second run on the result creates nothing and changes
   nothing.
   */
  lemma ImportTwice(live: Mode, db: Db, b: Bundle)
    requires live.Real? && Tidy(b) && Closed(b)
    ensures var first := ImportBundle(live, db, b);
            var second := ImportBundle(live, first.db, b);
            && Complete(first) && Complete(second)
            && second.db == first.db && NothingCreated(second.stats)
            && !first.fallbackUsed && !second.fallbackUsed
  {
    hide ImportBundle, Tidy, Closed, Recorded;
    TidyIsRecorded(live, db, b);
    ClosedNeedsNoFallback(live, db, b);
    RerunIff(live, db, b);
  }

  // ---------- codes that cleaning would change ----------

  lemma {:induction false} IndexKeys<D>(rows: seq<Row<D>>, code: string)
    requires code in Index(rows) && !IsClean(code)
    ensures exists i :: 0 <= i < |rows| && rows[i].id == code
  {
    hide Core, IsClean;
    var last := |rows| - 1;
    if code == KeyOf(rows[last]) {
      CoreIsClean(if rows[last].code != "" then rows[last].code else rows[last].id);
    } else {
      IndexKeys(rows[..last], code);
      var i :| 0 <= i < last && rows[..last][i].id == code;
      assert rows[i].id == code;
    }
  }

  /** No row has one of the bundle's unit codes or tags as its identifier. */
  ghost predicate IdentifiersApart(b: Bundle, db: Db) {
    && (forall i, k :: 0 <= i < |b.units| && 0 <= k < |db.units| ==>
          db.units[k].id != UnitCode(UnitCodes(b.units), b.units[i]))
    && forall i, k :: 0 <= i < |b.equipments| && 0 <= k < |db.equipments| ==>
         db.equipments[k].id != TagOf(b.equipments[i])
  }

  /** Every code the importer gives a unit or an equipment of the bundle is clean. */
  predicate CleanCodes(b: Bundle) {
    && (forall i :: 0 <= i < |b.units| ==> IsClean(UnitCode(UnitCodes(b.units), b.units[i])))
    && forall i :: 0 <= i < |b.equipments| ==> IsClean(TagOf(b.equipments[i]))
  }

  /** Rereading a table finds a code it holds exactly when the code is clean, unless an identifier looks like it. */
  lemma HeldIsReadIff<D>(known: map<string, Ref>, rows: seq<Row<D>>, code: string)
    requires Held(known, rows, false) && code in known && forall k :: 0 <= k < |rows| ==> rows[k].id != code
    ensures code in Index(rows) <==> IsClean(code)
  {
    hide Index, HasCode, IsClean;
    if IsClean(code) {
      if code !in Index(rows) {
        IndexHas(rows, code);
      }
    } else if code in Index(rows) {
      IndexKeys(rows, code);
    }
  }

  /**
   While identifiers do not look like codes, a bundle that was imported completely can be imported again
   if and only if every code the importer gives its units and equipments is clean.
   */
  lemma RerunCleanIff(live: Mode, db: Db, b: Bundle)
    requires live.Real? && Complete(ImportBundle(live, db, b))
    requires IdentifiersApart(b, ImportBundle(live, db, b).db)
    ensures var first := ImportBundle(live, db, b);
            var second := ImportBundle(live, first.db, b);
            && (Complete(second) <==> CleanCodes(b))
            && (Complete(second) ==> second.db == first.db && NothingCreated(second.stats) && !second.fallbackUsed)
  {
    hide ImportBundle, UnitCodes, Index, UnitCode, TagOf, IsClean, HasCode, PartnerKnown, Held;
    var first := ImportBundle(live, db, b);
    RunMirrors(live, db, b, false);
    CompleteKnows(live, db, b);
    RerunIff(live, db, b);
    forall i | 0 <= i < |b.units|
      ensures UnitCode(UnitCodes(b.units), b.units[i]) in Index(first.db.units)
              <==> IsClean(UnitCode(UnitCodes(b.units), b.units[i]))
    {
      HeldIsReadIff(first.unitsByCode, first.db.units, UnitCode(UnitCodes(b.units), b.units[i]));
    }
    forall i | 0 <= i < |b.equipments|
      ensures TagOf(b.equipments[i]) in Index(first.db.equipments) <==> IsClean(TagOf(b.equipments[i]))
    {
      HeldIsReadIff(first.equipmentsByTag, first.db.equipments, TagOf(b.equipments[i]));
    }
  }

  /** A row is stored under the code, and no row has it as identifier. */
  ghost predicate Unreadable(rows: seq<Row<UnitData>>, code: string) {
    HasCode(rows, code) && forall i :: 0 <= i < |rows| ==> rows[i].id != code
  }

  /** The database never chooses the code as an identifier. */
  ghost predicate Avoids(mode: Mode, code: string) {
    mode.Real? ==> forall c :: mode.unitId(c) != code
  }

  lemma CreateUnitUnreadable(mode: Mode, s: State, code: string, data: UnitData, raw: string)
    requires Unreadable(s.db.units, raw) && Avoids(mode, raw)
    ensures Unreadable(CreateUnit(mode, s, code, data).db.units, raw)
  {
    var t := CreateUnit(mode, s, code, data);
    var i :| 0 <= i < |s.db.units| && s.db.units[i].code == raw;
    assert t.db.units[i].code == raw;
  }

  lemma CreatePartnerUnreadable(mode: Mode, s: State, code: string, name: string, id: string)
    ensures CreatePartner(mode, s, code, name, id).db.units == s.db.units
  {
  }

  lemma UnitStepUnreadable(mode: Mode, codes: map<string, string>, s: State, u: LegacyUnit, raw: string)
    requires Unreadable(s.db.units, raw) && Avoids(mode, raw)
    ensures Unreadable(UnitStep(mode, codes, s, u).db.units, raw)
  {
    hide CreateUnit, CreatePartner, UnitCode, UnitPartnerCode, CleanText, OrNull, PartnerId, Avoids, HasCode;
    var code, asked := UnitCode(codes, u), s.(fallbackUsed := true);
    CreatePartnerUnreadable(mode, asked, NO_PARTNER, "Legado sem parceiro identificado",
                            if mode.DryRun? then "dry-run-fallback-partner" else PartnerId(mode, NO_PARTNER));
    if s.ok && code !in s.unitsByCode {
      if UnitPartnerCode(u) in s.partnersByCode {
        AttachUnitUnreadable(mode, s, u, code, s.partnersByCode[UnitPartnerCode(u)], raw);
      } else if EnsureFallback(mode, s).ok {
        AttachUnitUnreadable(mode, EnsureFallback(mode, s), u, code, EnsureFallback(mode, s).fallback.value, raw);
      }
    }
  }

  lemma AttachUnitUnreadable(mode: Mode, s: State, u: LegacyUnit, code: string, partner: Ref, raw: string)
    requires Unreadable(s.db.units, raw) && Avoids(mode, raw)
    ensures Unreadable(AttachUnit(mode, s, u, code, partner).db.units, raw)
  {
    hide CreateUnit, CleanText, OrNull, Unreadable, Avoids;
    var data := UnitData(CleanText(u.name, code), OrNull(CleanText(u.city, "")), OrNull(CleanText(u.state, "")),
                         partner.id);
    CreateUnitUnreadable(mode, s, code, data, raw);
    CreateUnitUnreadable(mode, s.(stats := s.stats.(unitsWithoutPartner := s.stats.unitsWithoutPartner + 1)), code,
                         data, raw);
  }

  lemma EquipmentStepUnreadable(mode: Mode, s: State, e: LegacyEquipment, raw: string)
    requires Unreadable(s.db.units, raw) && Avoids(mode, raw)
    ensures Unreadable(EquipmentStep(mode, s, e).db.units, raw)
  {
    hide AttachEquipment, EnsureStockUnit, Avoids, Unreadable, UnitFor, TagOf;
    StockUnreadable(mode, s, raw);
    forall s: State, unit: Ref ensures AttachEquipment(mode, s, e, unit).db.units == s.db.units {
      AttachEquipmentKeepsUnits(mode, s, e, unit);
    }
  }

  lemma AttachEquipmentKeepsUnits(mode: Mode, s: State, e: LegacyEquipment, unit: Ref)
    ensures AttachEquipment(mode, s, e, unit).db.units == s.db.units
  {
    hide CleanText, OrNull, TagOf, HasCode, EquipmentId;
  }

  lemma StockUnreadable(mode: Mode, s: State, raw: string)
    requires Unreadable(s.db.units, raw) && Avoids(mode, raw)
    ensures Unreadable(EnsureStockUnit(mode, s).db.units, raw)
  {
    hide CreateUnit, CreatePartner, CleanCode, CleanText, PartnerId, Avoids, HasCode;
    var clean := CleanCode(STARLINK_PARTNER, NO_PARTNER);
    CreatePartnerUnreadable(mode, s, clean, CleanText("Starlink", clean), PartnerId(mode, clean));
    var ready := EnsurePartner(mode, s, STARLINK_PARTNER, "Starlink");
    if ready.ok && STOCK_UNIT !in ready.unitsByCode {
      CreateUnitUnreadable(mode, ready.(stats := ready.stats.(stockUnitCreated := true)), STOCK_UNIT,
                           UnitData("Estoque legado de Starlinks", None, None, ready.partnersByCode[clean].id), raw);
    }
  }

  lemma {:induction false} PartnersUnreadable(mode: Mode, s: State, ps: seq<LegacyPartner>)
    ensures ImportPartners(mode, s, ps).db.units == s.db.units
    decreases |ps|
  {
    hide CreatePartner, CleanCode, CleanText, PartnerId, PartnerCode;
    if ps != [] {
      var clean := CleanCode(PartnerCode(ps[0]), NO_PARTNER);
      CreatePartnerUnreadable(mode, s, clean, CleanText(ps[0].name, clean), PartnerId(mode, clean));
      PartnersUnreadable(mode, PartnerStep(mode, s, ps[0]), ps[1..]);
    }
  }

  lemma {:induction false} UnitsUnreadable(mode: Mode, codes: map<string, string>, s: State, us: seq<LegacyUnit>,
                                           raw: string)
    requires Unreadable(s.db.units, raw) && Avoids(mode, raw)
    ensures Unreadable(ImportUnits(mode, codes, s, us).db.units, raw)
    decreases |us|
  {
    hide UnitStep, Unreadable, Avoids;
    if us != [] {
      UnitStepUnreadable(mode, codes, s, us[0], raw);
      UnitsUnreadable(mode, codes, UnitStep(mode, codes, s, us[0]), us[1..], raw);
    }
  }

  lemma {:induction false} EquipmentsUnreadable(mode: Mode, s: State, es: seq<LegacyEquipment>, raw: string)
    requires Unreadable(s.db.units, raw) && Avoids(mode, raw)
    ensures Unreadable(ImportEquipments(mode, s, es).db.units, raw)
    decreases |es|
  {
    hide EquipmentStep, Unreadable, Avoids;
    if es != [] {
      EquipmentStepUnreadable(mode, s, es[0], raw);
      EquipmentsUnreadable(mode, EquipmentStep(mode, s, es[0]), es[1..], raw);
    }
  }

  /** No run, whether it ends well or not, makes an unreadable row readable. */
  lemma RunUnreadable(mode: Mode, db: Db, b: Bundle, raw: string)
    requires Unreadable(db.units, raw) && Avoids(mode, raw)
    ensures Unreadable(ImportBundle(mode, db, b).db.units, raw)
  {
    hide ImportPartners, ImportUnits, ImportEquipments, UnitCodes, Avoids, HasCode;
    var partnersDone := ImportPartners(mode, Begin(db, b.units), b.partners);
    PartnersUnreadable(mode, Begin(db, b.units), b.partners);
    UnitsUnreadable(mode, UnitCodes(b.units), ReadFallback(partnersDone), b.units, raw);
    EquipmentsUnreadable(mode, ImportUnits(mode, UnitCodes(b.units), ReadFallback(partnersDone), b.units), b.equipments,
                         raw);
  }

  /** The database after further runs of the same bundle; a failed run keeps what it wrote before it failed. */
  function Rerun(modes: seq<Mode>, db: Db, b: Bundle): Db {
    if modes == [] then db
    else ImportBundle(modes[|modes| - 1], Rerun(modes[..|modes| - 1], db, b), b).db
  }

  lemma {:induction false} RerunsUnreadable(modes: seq<Mode>, db: Db, b: Bundle, raw: string)
    requires Unreadable(db.units, raw) && forall k :: 0 <= k < |modes| ==> Avoids(modes[k], raw)
    ensures Unreadable(Rerun(modes, db, b).units, raw)
  {
    hide ImportBundle, Unreadable, Avoids;
    if modes != [] {
      RerunsUnreadable(modes[..|modes| - 1], db, b, raw);
      RunUnreadable(modes[|modes| - 1], Rerun(modes[..|modes| - 1], db, b), b, raw);
    }
  }

  /**
   Again and again: a unit stored under a code that is not clean makes every later real run of the bundle
   fail, after any number of further runs, real or dry, unless a row has that code as its identifier.
   */
  lemma RawCodeStopsReruns(live: Mode, db: Db, b: Bundle, i: nat, between: seq<Mode>, again: Mode)
    requires live.Real? && again.Real? && ImportBundle(live, db, b).ok && i < |b.units|
    requires var code := UnitCode(UnitCodes(b.units), b.units[i]);
             && !IsClean(code)
             && (forall k :: 0 <= k < |ImportBundle(live, db, b).db.units| ==>
                   ImportBundle(live, db, b).db.units[k].id != code)
             && forall k :: 0 <= k < |between| ==> Avoids(between[k], code)
    ensures !ImportBundle(again, Rerun(between, ImportBundle(live, db, b).db, b), b).ok
  {
    hide ImportBundle, UnitCodes, Index, UnitCode, IsClean, HasCode, Avoids, TagOf, PartnerKnown;
    var code, first := UnitCode(UnitCodes(b.units), b.units[i]), ImportBundle(live, db, b).db;
    RunMirrors(live, db, b, false);
    CompleteKnows(live, db, b);
    assert HasCode(first.units, code) || code in Index(first.units);
    if code in Index(first.units) {
      IndexKeys(first.units, code);
    }
    RerunsUnreadable(between, first, b, code);
    var later := Rerun(between, first, b);
    if code in Index(later.units) {
      IndexKeys(later.units, code);
    }
    BlockedStops(again, later, b, i);
  }

  /** A unit whose code is only dashes, under a key with a colon, is imported once and stops the second run. */
  lemma RerunCanFail(live: Mode)
    requires live.Real? && live.unitId("LEGACY-UNIT-a::b") != "LEGACY-UNIT-a::b"
    ensures var b := Bundle([], [LegacyUnit("a::b", "--", "", "", "", "", "")], []);
            var first := ImportBundle(live, Db([], [], []), b);
            first.ok && !ImportBundle(live, first.db, b).ok
  {
    hide IsClean, Core, SuffixOf, CleanText, Upper, Trim;
    var raw := "LEGACY-UNIT-a::b";
    var u := LegacyUnit("a::b", "--", "", "", "", "", "");
    var b := Bundle([], [u], []);
    assert "LEGACY-UNIT-" + u.key == raw;
    RawFallback();
    OneUnitCode(u);
    EmptyRun(live, u, raw);
    hide ImportBundle, UnitCode, UnitCodes;
    RawCodeStopsReruns(live, Db([], [], []), b, 0, [], live);
  }

  lemma OneUnitCode(u: LegacyUnit)
    requires BaseOf(u) != ""
    ensures UnitCode(UnitCodes([u]), u) == BaseOf(u)
  {
    hide BaseOf, SuffixOf;
    assert [u][1..] == [] && [u][..0] == [];
    assert BaseCount([u], BaseOf(u)) == 1 + BaseCount([], BaseOf(u));
    assert Codes([u], [u], {}) == [BaseOf(u)];
  }

  /** The only unit of a bundle lands in an empty database under its code. */
  lemma EmptyRun(live: Mode, u: LegacyUnit, code: string)
    requires live.Real? && UnitCode(UnitCodes([u]), u) == code
    ensures var first := ImportBundle(live, Db([], [], []), Bundle([], [u], []));
            first.ok && |first.db.units| == 1 && first.db.units[0].id == live.unitId(code)
  {
    hide UnitCode, UnitCodes, CleanCode, CleanText, OrNull, ResolvedDuplicates;
    var s := ReadFallback(Begin(Db([], [], []), [u]));
    assert [u][1..] == [];
    assert ImportUnits(live, UnitCodes([u]), s, [u]) == UnitStep(live, UnitCodes([u]), s, u);
  }
}
