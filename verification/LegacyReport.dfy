/**
 Properties of one whole import run: the report adds up, and a closed bundle needs no fallback.
 */
module LegacyReport {
  import opened LegacyCodes
  import opened LegacyImport
  import opened Options
  import opened Text

  // ---------- what one step may change ----------

  /** Nothing known is forgotten. */
  ghost predicate Grows(s: State, t: State) {
    && s.partnersByCode.Keys <= t.partnersByCode.Keys
    && s.unitsByCode.Keys <= t.unitsByCode.Keys
    && s.equipmentsByTag.Keys <= t.equipmentsByTag.Keys
    && s.unitByLegacyKey.Keys <= t.unitByLegacyKey.Keys
    && s.stats.equipmentsWithoutUnit <= t.stats.equipmentsWithoutUnit
    && (s.fallbackUsed ==> t.fallbackUsed)
    && (t.ok ==> s.ok)
  }

  lemma GrowsTrans(a: State, b: State, c: State)
    requires Grows(a, b) && Grows(b, c)
    ensures Grows(a, c)
  {
  }

  function Units(stats: Stats): nat {
    stats.unitsCreated + stats.unitsSkipped
  }

  function Equipments(stats: Stats): nat {
    stats.equipmentsCreated + stats.equipmentsSkipped + stats.equipmentsWithoutUnit
  }

  /** A created stock unit is known, so it is not created twice. */
  ghost predicate StockKnown(s: State) {
    s.stats.stockUnitCreated ==> STOCK_UNIT in s.unitsByCode
  }

  lemma CreatePartnerFacts(mode: Mode, s: State, code: string, name: string, id: string)
    requires s.ok
    ensures var t := CreatePartner(mode, s, code, name, id);
            && Grows(s, t) && t.unitsByCode == s.unitsByCode && t.unitByLegacyKey == s.unitByLegacyKey
            && t.equipmentsByTag == s.equipmentsByTag && t.fallback == s.fallback && t.fallbackUsed == s.fallbackUsed
            && t.stats == s.stats.(partnersCreated := t.stats.partnersCreated)
  {
    hide HasCode, InsertPartner;
  }

  lemma EnsurePartnerFacts(mode: Mode, s: State, code: string, name: string)
    requires s.ok
    ensures var t := EnsurePartner(mode, s, code, name);
            && Grows(s, t) && t.unitsByCode == s.unitsByCode && t.unitByLegacyKey == s.unitByLegacyKey
            && t.equipmentsByTag == s.equipmentsByTag && t.fallback == s.fallback && t.fallbackUsed == s.fallbackUsed
            && t.stats == s.stats.(partnersCreated := t.stats.partnersCreated)
  {
    hide CleanCode, CleanText, CreatePartner, PartnerId;
    var clean := CleanCode(code, NO_PARTNER);
    CreatePartnerFacts(mode, s, clean, CleanText(name, clean), PartnerId(mode, clean));
  }

  /** The partner loop finds the partner and creates nothing for it. */
  ghost predicate PartnerKnown(partners: map<string, Ref>, p: LegacyPartner) {
    PartnerCode(p) in partners || CleanCode(PartnerCode(p), NO_PARTNER) in partners
  }

  lemma KnownStays(p: LegacyPartner, s: State, t: State)
    requires PartnerKnown(s.partnersByCode, p) && Grows(s, t)
    ensures PartnerKnown(t.partnersByCode, p)
  {
  }

  lemma PartnerStepFacts(mode: Mode, s: State, p: LegacyPartner)
    requires s.ok
    ensures var t := PartnerStep(mode, s, p);
            && Grows(s, t) && t.fallbackUsed == s.fallbackUsed
            && Units(t.stats) == Units(s.stats) && Equipments(t.stats) == Equipments(s.stats)
            && t.stats.equipmentsWithoutUnit == s.stats.equipmentsWithoutUnit
            && t.stats.stockUnitCreated == s.stats.stockUnitCreated
            && (t.ok ==> PartnerKnown(t.partnersByCode, p))
  {
    hide PartnerCode, EnsurePartner, CleanCode;
    EnsurePartnerFacts(mode, s, PartnerCode(p), p.name);
  }

  lemma CleanedAgain(code: string, default: string)
    requires IsClean(code)
    ensures CleanCode(code, default) == code
  {
    hide Core;
    CleanIsFixed(code);
  }

  lemma EnsureFallbackFacts(mode: Mode, s: State)
    requires s.ok
    ensures var t := EnsureFallback(mode, s);
            && Grows(s, t) && t.unitsByCode == s.unitsByCode && t.unitByLegacyKey == s.unitByLegacyKey
            && t.equipmentsByTag == s.equipmentsByTag
            && t.stats == s.stats.(partnersCreated := t.stats.partnersCreated)
  {
    hide CreatePartner, PartnerId;
    var id := if mode.DryRun? then "dry-run-fallback-partner" else PartnerId(mode, NO_PARTNER);
    CreatePartnerFacts(mode, s.(fallbackUsed := true), NO_PARTNER, "Legado sem parceiro identificado", id);
  }

  lemma CreateUnitFacts(mode: Mode, s: State, code: string, data: UnitData)
    requires s.ok
    ensures var t := CreateUnit(mode, s, code, data);
            && Grows(s, t) && t.partnersByCode == s.partnersByCode && t.unitByLegacyKey == s.unitByLegacyKey
            && t.equipmentsByTag == s.equipmentsByTag && t.fallbackUsed == s.fallbackUsed
            && t.stats == s.stats.(unitsCreated := t.stats.unitsCreated)
            && (t.ok ==> code in t.unitsByCode && t.stats.unitsCreated == s.stats.unitsCreated + 1)
  {
    hide HasCode, InsertUnit, UnitId;
  }

  lemma AttachUnitFacts(mode: Mode, s: State, u: LegacyUnit, code: string, partner: Ref)
    requires s.ok
    ensures var t := AttachUnit(mode, s, u, code, partner);
            && Grows(s, t) && t.partnersByCode == s.partnersByCode && t.fallbackUsed == s.fallbackUsed
            && t.stats == s.stats.(unitsCreated := t.stats.unitsCreated,
                                   unitsWithoutPartner := t.stats.unitsWithoutPartner)
            && (t.ok ==>
                  code in t.unitsByCode && u.key in t.unitByLegacyKey
                      && t.stats.unitsCreated == s.stats.unitsCreated + 1)
  {
    hide CreateUnit, CleanText, OrNull;
    var counted := if partner.code == NO_PARTNER
                   then s.(stats := s.stats.(unitsWithoutPartner := s.stats.unitsWithoutPartner + 1)) else s;
    CreateUnitFacts(mode, counted, code,
                    UnitData(CleanText(u.name, code), OrNull(CleanText(u.city, "")), OrNull(CleanText(u.state, "")),
                             partner.id));
  }

  lemma UnitStepFacts(mode: Mode, codes: map<string, string>, s: State, u: LegacyUnit)
    requires s.ok
    ensures var t := UnitStep(mode, codes, s, u);
            && Grows(s, t)
            && (UnitPartnerCode(u) in s.partnersByCode ==> t.fallbackUsed == s.fallbackUsed)
            && Equipments(t.stats) == Equipments(s.stats)
            && t.stats.equipmentsWithoutUnit == s.stats.equipmentsWithoutUnit
            && t.stats.stockUnitCreated == s.stats.stockUnitCreated
            && (t.ok ==>
                  Units(t.stats) == Units(s.stats) + 1 && UnitCode(codes, u) in t.unitsByCode
                      && u.key in t.unitByLegacyKey)
  {
    hide UnitCode, UnitPartnerCode, EnsureFallback, AttachUnit;
    var code := UnitCode(codes, u);
    if code !in s.unitsByCode {
      if UnitPartnerCode(u) in s.partnersByCode {
        AttachUnitFacts(mode, s, u, code, s.partnersByCode[UnitPartnerCode(u)]);
      } else {
        EnsureFallbackFacts(mode, s);
        var ready := EnsureFallback(mode, s);
        if ready.ok {
          AttachUnitFacts(mode, ready, u, code, ready.fallback.value);
          GrowsTrans(s, ready, AttachUnit(mode, ready, u, code, ready.fallback.value));
        }
      }
    }
  }

  lemma EnsureStockUnitFacts(mode: Mode, s: State)
    requires s.ok && StockKnown(s)
    ensures var t := EnsureStockUnit(mode, s);
            && Grows(s, t) && t.fallbackUsed == s.fallbackUsed && t.equipmentsByTag == s.equipmentsByTag
            && Equipments(t.stats) == Equipments(s.stats)
            && t.stats.equipmentsWithoutUnit == s.stats.equipmentsWithoutUnit
            && (t.ok ==> StockKnown(t)
                         && Units(t.stats) + (if s.stats.stockUnitCreated then 1 else 0)
                            == Units(s.stats) + (if t.stats.stockUnitCreated then 1 else 0))
  {
    hide EnsurePartner, CreateUnit, CleanCode;
    EnsurePartnerFacts(mode, s, STARLINK_PARTNER, "Starlink");
    var ready := EnsurePartner(mode, s, STARLINK_PARTNER, "Starlink");
    if ready.ok && STOCK_UNIT !in ready.unitsByCode {
      var marked := ready.(stats := ready.stats.(stockUnitCreated := true));
      CreateUnitFacts(mode, marked, STOCK_UNIT,
                      UnitData("Estoque legado de Starlinks", None, None,
                               ready.partnersByCode[CleanCode(STARLINK_PARTNER, NO_PARTNER)].id));
    }
  }

  lemma AttachEquipmentFacts(mode: Mode, s: State, e: LegacyEquipment, unit: Ref)
    requires s.ok
    ensures var t := AttachEquipment(mode, s, e, unit);
            && Grows(s, t) && t.fallbackUsed == s.fallbackUsed && t.unitsByCode == s.unitsByCode
            && t.stats == s.stats.(equipmentsCreated := t.stats.equipmentsCreated)
            && (t.ok ==> TagOf(e) in t.equipmentsByTag && t.stats.equipmentsCreated == s.stats.equipmentsCreated + 1)
  {
    hide TagOf, CleanText, OrNull, Lower, HasCode, InsertEquipment, EquipmentId;
  }

  lemma EquipmentStepGrows(mode: Mode, s: State, e: LegacyEquipment)
    requires s.ok && StockKnown(s)
    ensures var t := EquipmentStep(mode, s, e);
            && Grows(s, t) && t.fallbackUsed == s.fallbackUsed
            && (t.ok ==>
                  TagOf(e) in t.equipmentsByTag || t.stats.equipmentsWithoutUnit == s.stats.equipmentsWithoutUnit + 1)
            && (e.source == "starlinks" || UnitFor(s, e).Some? ==>
                  t.stats.equipmentsWithoutUnit == s.stats.equipmentsWithoutUnit)
  {
    hide TagOf, EnsureStockUnit, AttachEquipment, UnitFor;
    if TagOf(e) !in s.equipmentsByTag {
      if UnitFor(s, e).Some? {
        AttachEquipmentFacts(mode, s, e, UnitFor(s, e).value);
      } else if e.source == "starlinks" {
        EnsureStockUnitFacts(mode, s);
        var ready := EnsureStockUnit(mode, s);
        if ready.ok {
          AttachEquipmentFacts(mode, ready, e, ready.unitsByCode[STOCK_UNIT]);
          GrowsTrans(s, ready, AttachEquipment(mode, ready, e, ready.unitsByCode[STOCK_UNIT]));
        }
      }
    }
  }

  lemma EquipmentStepCounts(mode: Mode, s: State, e: LegacyEquipment)
    requires s.ok && StockKnown(s) && EquipmentStep(mode, s, e).ok
    ensures var t := EquipmentStep(mode, s, e);
            && StockKnown(t) && Equipments(t.stats) == Equipments(s.stats) + 1
            && Units(t.stats) + (if s.stats.stockUnitCreated then 1 else 0)
               == Units(s.stats) + (if t.stats.stockUnitCreated then 1 else 0)
  {
    hide TagOf, EnsureStockUnit, AttachEquipment, UnitFor, Grows;
    if TagOf(e) !in s.equipmentsByTag {
      if UnitFor(s, e).Some? {
        AttachEquipmentFacts(mode, s, e, UnitFor(s, e).value);
      } else if e.source == "starlinks" {
        EnsureStockUnitFacts(mode, s);
        var ready := EnsureStockUnit(mode, s);
        AttachEquipmentFacts(mode, ready, e, ready.unitsByCode[STOCK_UNIT]);
      }
    }
  }

  // ---------- the loops ----------

  lemma GrowsSelf(s: State)
    ensures Grows(s, s)
  {
  }

  lemma {:induction false} PartnersLoop(mode: Mode, s: State, ps: seq<LegacyPartner>)
    requires ImportPartners(mode, s, ps).ok
    ensures var t := ImportPartners(mode, s, ps);
            && s.ok && Grows(s, t) && t.fallbackUsed == s.fallbackUsed
            && Units(t.stats) == Units(s.stats) && Equipments(t.stats) == Equipments(s.stats)
            && t.stats.equipmentsWithoutUnit == s.stats.equipmentsWithoutUnit
            && t.stats.stockUnitCreated == s.stats.stockUnitCreated
            && forall i :: 0 <= i < |ps| ==> PartnerKnown(t.partnersByCode, ps[i])
    decreases |ps|
  {
    hide PartnerStep, PartnerKnown, Units, Equipments;
    FailedPartners(mode, s, ps);
    GrowsSelf(s);
    if ps != [] {
      var next := PartnerStep(mode, s, ps[0]);
      PartnerStepFacts(mode, s, ps[0]);
      PartnersLoop(mode, next, ps[1..]);
      GrowsTrans(s, next, ImportPartners(mode, next, ps[1..]));
      var t := ImportPartners(mode, s, ps);
      KnownStays(ps[0], next, t);
      forall i | 0 <= i < |ps| ensures PartnerKnown(t.partnersByCode, ps[i]) {
        if i > 0 {
          assert ps[i] == ps[1..][i - 1];
        }
      }
    }
  }

  lemma {:induction false} UnitsLoop(mode: Mode, codes: map<string, string>, s: State, us: seq<LegacyUnit>)
    requires ImportUnits(mode, codes, s, us).ok
    ensures var t := ImportUnits(mode, codes, s, us);
            && s.ok && Grows(s, t)
            && ((forall i :: 0 <= i < |us| ==> UnitPartnerCode(us[i]) in s.partnersByCode) ==>
                t.fallbackUsed == s.fallbackUsed)
            && Equipments(t.stats) == Equipments(s.stats) && Units(t.stats) == Units(s.stats) + |us|
            && t.stats.equipmentsWithoutUnit == s.stats.equipmentsWithoutUnit
            && t.stats.stockUnitCreated == s.stats.stockUnitCreated
            && forall i :: 0 <= i < |us| ==> UnitCode(codes, us[i]) in t.unitsByCode && us[i].key in t.unitByLegacyKey
    decreases |us|
  {
    hide UnitStep, UnitCode, UnitPartnerCode, Units, Equipments;
    FailedUnits(mode, codes, s, us);
    GrowsSelf(s);
    if us != [] {
      var next := UnitStep(mode, codes, s, us[0]);
      UnitStepFacts(mode, codes, s, us[0]);
      UnitsLoop(mode, codes, next, us[1..]);
      GrowsTrans(s, next, ImportUnits(mode, codes, next, us[1..]));
      var t := ImportUnits(mode, codes, s, us);
      forall i | 0 <= i < |us| ensures UnitCode(codes, us[i]) in t.unitsByCode && us[i].key in t.unitByLegacyKey {
        if i > 0 {
          assert us[i] == us[1..][i - 1];
        }
      }
      if forall i :: 0 <= i < |us| ==> UnitPartnerCode(us[i]) in s.partnersByCode {
        forall i | 0 <= i < |us[1..]| ensures UnitPartnerCode(us[1..][i]) in next.partnersByCode {
          assert us[1..][i] == us[i + 1];
        }
      }
    }
  }

  /** The equipment names a unit of the map, or the stock unit takes it. */
  ghost predicate HasHome(e: LegacyEquipment, units: map<string, Ref>) {
    e.source == "starlinks" || (e.unitKey != "" && e.unitKey in units)
  }

  lemma {:induction false} EquipmentsLoop(mode: Mode, s: State, es: seq<LegacyEquipment>)
    requires StockKnown(s) && ImportEquipments(mode, s, es).ok
    ensures var t := ImportEquipments(mode, s, es);
            && s.ok && Grows(s, t) && t.fallbackUsed == s.fallbackUsed
            && Equipments(t.stats) == Equipments(s.stats) + |es|
            && Units(t.stats) + (if s.stats.stockUnitCreated then 1 else 0)
               == Units(s.stats) + (if t.stats.stockUnitCreated then 1 else 0)
    decreases |es|
  {
    FailedEquipments(mode, s, es);
    GrowsSelf(s);
    if es != [] {
      var next := EquipmentStep(mode, s, es[0]);
      FailedEquipments(mode, next, es[1..]);
      EquipmentStepGrows(mode, s, es[0]);
      EquipmentStepCounts(mode, s, es[0]);
      hide EquipmentStep, TagOf, UnitFor, Units, Equipments, StockKnown;
      EquipmentsLoop(mode, next, es[1..]);
      GrowsTrans(s, next, ImportEquipments(mode, next, es[1..]));
    }
  }

  /** With a home for every equipment none is left out, and every tag is known at the end unless some equipment was
   left out. */
  lemma {:induction false} EquipmentsPlaced(mode: Mode, s: State, es: seq<LegacyEquipment>)
    requires StockKnown(s) && ImportEquipments(mode, s, es).ok
    ensures var t := ImportEquipments(mode, s, es);
            && ((forall i :: 0 <= i < |es| ==> HasHome(es[i], s.unitByLegacyKey)) ==>
                  t.stats.equipmentsWithoutUnit == s.stats.equipmentsWithoutUnit)
            && (t.stats.equipmentsWithoutUnit == s.stats.equipmentsWithoutUnit ==>
                  forall i :: 0 <= i < |es| ==> TagOf(es[i]) in t.equipmentsByTag)
    decreases |es|
  {
    if es != [] {
      var e, rest := es[0], es[1..];
      var next := EquipmentStep(mode, s, e);
      FailedEquipments(mode, s, es);
      FailedEquipments(mode, next, rest);
      EquipmentStepGrows(mode, s, e);
      EquipmentStepCounts(mode, s, e);
      HomeFound(s, e);
      hide EquipmentStep, TagOf, UnitFor, StockKnown, HasHome;
      EquipmentsPlaced(mode, next, rest);
      EquipmentsLoop(mode, next, rest);
      var t := ImportEquipments(mode, s, es);
      if forall i :: 0 <= i < |es| ==> HasHome(es[i], s.unitByLegacyKey) {
        assert HasHome(es[0], s.unitByLegacyKey);
        forall i | 0 <= i < |rest| ensures HasHome(rest[i], next.unitByLegacyKey) {
          assert rest[i] == es[i + 1];
          HomeStays(rest[i], s, next);
        }
      }
      if t.stats.equipmentsWithoutUnit == s.stats.equipmentsWithoutUnit {
        forall i | 0 <= i < |es| ensures TagOf(es[i]) in t.equipmentsByTag {
          if i > 0 {
            assert es[i] == rest[i - 1];
          }
        }
      }
    }
  }

  lemma HomeFound(s: State, e: LegacyEquipment)
    ensures HasHome(e, s.unitByLegacyKey) ==> e.source == "starlinks" || UnitFor(s, e).Some?
  {
  }

  lemma HomeStays(e: LegacyEquipment, s: State, t: State)
    requires HasHome(e, s.unitByLegacyKey) && Grows(s, t)
    ensures HasHome(e, t.unitByLegacyKey)
  {
  }

  // ---------- main results about one run ----------

  /** The stages of a successful run. */
  lemma Stages(mode: Mode, db: Db, b: Bundle) returns (afterPartners: State, beforeUnits: State, afterUnits: State)
    requires ImportBundle(mode, db, b).ok
    ensures afterPartners == ImportPartners(mode, Begin(db, b.units), b.partners) && afterPartners.ok
    ensures beforeUnits == ReadFallback(afterPartners)
    ensures afterUnits == ImportUnits(mode, UnitCodes(b.units), beforeUnits, b.units) && afterUnits.ok
    ensures ImportBundle(mode, db, b) == ImportEquipments(mode, afterUnits, b.equipments)
  {
    hide ImportPartners, ImportUnits, ImportEquipments, UnitCodes, Begin;
    afterPartners := ImportPartners(mode, Begin(db, b.units), b.partners);
    beforeUnits := ReadFallback(afterPartners);
    afterUnits := ImportUnits(mode, UnitCodes(b.units), beforeUnits, b.units);
    FailedEquipments(mode, afterUnits, b.equipments);
    FailedUnits(mode, UnitCodes(b.units), beforeUnits, b.units);
  }

  lemma BeginCounts(db: Db, units: seq<LegacyUnit>)
    ensures var s := Begin(db, units);
            && Units(s.stats) == 0 && Equipments(s.stats) == 0 && s.stats.equipmentsWithoutUnit == 0
            && !s.stats.stockUnitCreated && !s.fallbackUsed && s.ok
            && s.stats.partnersCreated == 0 && s.stats.unitsCreated == 0 && s.stats.equipmentsCreated == 0
  {
    hide Index, UnitCodes, ResolvedDuplicates;
  }

  lemma ReadFallbackFacts(s: State)
    ensures var t := ReadFallback(s);
            && t.ok == s.ok && t.stats == s.stats && t.fallbackUsed == s.fallbackUsed && Grows(s, t) && t.db == s.db
            && t.partnersByCode == s.partnersByCode && t.unitsByCode == s.unitsByCode
                && t.equipmentsByTag == s.equipmentsByTag
  {
  }

  /** Where a run stands when its equipment loop begins. */
  ghost predicate UnitsDone(b: Bundle, codes: map<string, string>, s: State) {
    && s.ok && StockKnown(s) && !s.stats.stockUnitCreated
    && Units(s.stats) == |b.units| && Equipments(s.stats) == 0 && s.stats.equipmentsWithoutUnit == 0
    && (forall i :: 0 <= i < |b.partners| ==> PartnerKnown(s.partnersByCode, b.partners[i]))
    && (forall i :: 0 <= i < |b.units| ==>
        UnitCode(codes, b.units[i]) in s.unitsByCode && b.units[i].key in s.unitByLegacyKey)
  }

  /** Where a run stands when its unit loop begins. */
  ghost predicate PartnersDone(b: Bundle, s: State) {
    && s.ok && !s.fallbackUsed && !s.stats.stockUnitCreated
    && Units(s.stats) == 0 && Equipments(s.stats) == 0 && s.stats.equipmentsWithoutUnit == 0
    && (forall i :: 0 <= i < |b.partners| ==> PartnerKnown(s.partnersByCode, b.partners[i]))
  }

  lemma PartnersStage(mode: Mode, db: Db, b: Bundle)
    requires ImportPartners(mode, Begin(db, b.units), b.partners).ok
    ensures PartnersDone(b, ReadFallback(ImportPartners(mode, Begin(db, b.units), b.partners)))
  {
    hide Begin, UnitCodes, ImportPartners, PartnerKnown, Units, Equipments, ReadFallback, Grows;
    BeginCounts(db, b.units);
    PartnersLoop(mode, Begin(db, b.units), b.partners);
    ReadFallbackFacts(ImportPartners(mode, Begin(db, b.units), b.partners));
  }

  lemma UnitsStage(mode: Mode, db: Db, b: Bundle) returns (s: State)
    requires ImportBundle(mode, db, b).ok
    ensures UnitsDone(b, UnitCodes(b.units), s)
    ensures Closed(b) ==> !s.fallbackUsed
    ensures ImportBundle(mode, db, b) == ImportEquipments(mode, s, b.equipments)
  {
    var afterPartners, beforeUnits, afterUnits := Stages(mode, db, b);
    s := afterUnits;
    hide ImportBundle, Begin, UnitCodes, ImportPartners, ImportUnits, ImportEquipments, ReadFallback, Closed,
        PartnersDone, UnitsDone;
    PartnersStage(mode, db, b);
    UnitsAfterPartners(mode, b, UnitCodes(b.units), beforeUnits);
  }

  lemma KnownAllStay(ps: seq<LegacyPartner>, s: State, t: State)
    requires Grows(s, t) && forall i :: 0 <= i < |ps| ==> PartnerKnown(s.partnersByCode, ps[i])
    ensures forall i :: 0 <= i < |ps| ==> PartnerKnown(t.partnersByCode, ps[i])
  {
    hide PartnerKnown, Grows;
    forall i | 0 <= i < |ps| ensures PartnerKnown(t.partnersByCode, ps[i]) {
      KnownStays(ps[i], s, t);
    }
  }

  lemma UnitsAfterPartners(mode: Mode, b: Bundle, codes: map<string, string>, s: State)
    requires PartnersDone(b, s) && ImportUnits(mode, codes, s, b.units).ok
    ensures UnitsDone(b, codes, ImportUnits(mode, codes, s, b.units))
    ensures Closed(b) ==> !ImportUnits(mode, codes, s, b.units).fallbackUsed
  {
    hide ImportUnits, PartnerKnown, UnitCode, UnitPartnerCode, Units, Equipments, Closed;
    UnitsLoop(mode, codes, s, b.units);
    KnownAllStay(b.partners, s, ImportUnits(mode, codes, s, b.units));
    if Closed(b) {
      PartnersKnown(b, s);
    }
  }

  /** The report of every run whose writes succeed accounts for every unit and every equipment of the bundle. */
  lemma StatsAddUp(mode: Mode, db: Db, b: Bundle)
    requires ImportBundle(mode, db, b).ok
    ensures var stats := ImportBundle(mode, db, b).stats;
            && stats.unitsCreated + stats.unitsSkipped == |b.units| + (if stats.stockUnitCreated then 1 else 0)
            && stats.equipmentsCreated + stats.equipmentsSkipped + stats.equipmentsWithoutUnit == |b.equipments|
  {
    hide ImportBundle, UnitCodes, ImportEquipments, Grows, PartnerKnown, UnitCode;
    var s := UnitsStage(mode, db, b);
    EquipmentsLoop(mode, s, b.equipments);
  }

  ghost predicate HasPartner(partners: seq<LegacyPartner>, code: string) {
    exists k :: 0 <= k < |partners| && partners[k].code == code
  }

  ghost predicate HasUnit(units: seq<LegacyUnit>, key: string) {
    exists k :: 0 <= k < |units| && units[k].key == key
  }

  /** Clean partner codes, known partners for all units, and a home for all equipments. */
  ghost predicate Closed(b: Bundle) {
    && (forall i :: 0 <= i < |b.partners| ==> IsClean(b.partners[i].code))
    && (forall i :: 0 <= i < |b.units| ==> HasPartner(b.partners, b.units[i].partnerCode))
    && (forall i :: 0 <= i < |b.equipments| ==>
          b.equipments[i].source == "starlinks"
              || (b.equipments[i].unitKey != "" && HasUnit(b.units, b.equipments[i].unitKey)))
  }

  lemma PartnersKnown(b: Bundle, s: State)
    requires Closed(b)
    requires forall i :: 0 <= i < |b.partners| ==> PartnerKnown(s.partnersByCode, b.partners[i])
    ensures forall i :: 0 <= i < |b.units| ==> UnitPartnerCode(b.units[i]) in s.partnersByCode
  {
    hide IsClean;
    forall i | 0 <= i < |b.units| ensures UnitPartnerCode(b.units[i]) in s.partnersByCode {
      var k :| 0 <= k < |b.partners| && b.partners[k].code == b.units[i].partnerCode;
      var p := b.partners[k];
      CleanedAgain(p.code, NO_PARTNER);
      CleanedAgain(p.code, "LEGACY-PARTNER-" + if p.contactIds != [] && p.contactIds[0] != "" then p.contactIds[0]
                   else "SEM-CODIGO");
    }
  }

  /** Importing a closed bundle into any database never asks for the fallback partner and leaves no equipment out. */
  lemma ClosedNeedsNoFallback(mode: Mode, db: Db, b: Bundle)
    requires Closed(b) && ImportBundle(mode, db, b).ok
    ensures !ImportBundle(mode, db, b).fallbackUsed
    ensures ImportBundle(mode, db, b).stats.equipmentsWithoutUnit == 0
  {
    hide ImportBundle, UnitCodes, ImportEquipments, IsClean, PartnerKnown, UnitCode, Units, Equipments;
    var s := UnitsStage(mode, db, b);
    EquipmentsLoop(mode, s, b.equipments);
    EquipmentsPlaced(mode, s, b.equipments);
  }
}
