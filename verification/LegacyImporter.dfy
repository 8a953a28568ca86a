/**
 The script's `main` as it runs: one object with the script's variables, changed by its loops, each
 method tied to the function of LegacyImport that says what it does to them.
 */
module LegacyImporter {
  import opened LegacyCodes
  import opened LegacyImport
  import opened Options
  import opened Text

  class Importer {
    const mode: Mode
    var db: Db
    var partnersByCode: map<string, Ref>
    var unitsByCode: map<string, Ref>
    var equipmentsByTag: map<string, Ref>
    var unitByLegacyKey: map<string, Ref>
    var fallbackPartner: Option<Ref>
    var stats: Stats
    /** False once a write was refused; the script stops there. */
    var ok: bool
    ghost var fallbackUsed: bool

    ghost function View(): State
      reads this
    {
      State(db, partnersByCode, unitsByCode, equipmentsByTag, unitByLegacyKey, fallbackPartner, stats, ok, fallbackUsed)
    }

    constructor (mode: Mode, db: Db, units: seq<LegacyUnit>, codes: map<string, string>)
      requires codes == UnitCodes(units)
      ensures this.mode == mode && View() == Begin(db, units)
    {
      this.mode := mode;
      this.db := db;
      partnersByCode, unitsByCode, equipmentsByTag := Index(db.partners), Index(db.units), Index(db.equipments);
      unitByLegacyKey, fallbackPartner := map[], None;
      stats := Stats(0, 0, 0, 0, ResolvedDuplicates(codes, units), 0, 0, 0, 0, false);
      ok, fallbackUsed := true, false;
    }

    /** `partner.create`, real or pretended. */
    method StorePartner(code: string, name: string, id: string)
      requires ok
      modifies this
      ensures View() == CreatePartner(mode, old(View()), code, name, id)
    {
      hide HasCode;
      if mode.Real? {
        if HasCode(db.partners, code) {
          ok := false;
          return;
        }
        db := db.(partners := db.partners + [Row(id, code, PartnerData(name))]);
      }
      partnersByCode := partnersByCode[code := Ref(id, code)];
      stats := stats.(partnersCreated := stats.partnersCreated + 1);
    }

    method StoreUnit(code: string, data: UnitData)
      requires ok
      modifies this
      ensures View() == CreateUnit(mode, old(View()), code, data)
    {
      hide HasCode;
      if mode.Real? {
        if HasCode(db.units, code) {
          ok := false;
          return;
        }
        db := db.(units := db.units + [Row(UnitId(mode, code), code, data)]);
      }
      unitsByCode := unitsByCode[code := Ref(UnitId(mode, code), code)];
      stats := stats.(unitsCreated := stats.unitsCreated + 1);
    }

    method StoreEquipment(tag: string, data: EquipmentData)
      requires ok
      modifies this
      ensures View() == CreateEquipment(mode, old(View()), tag, data)
    {
      hide HasCode;
      if mode.Real? {
        if HasCode(db.equipments, tag) {
          ok := false;
          return;
        }
        db := db.(equipments := db.equipments + [Row(EquipmentId(mode, tag), tag, data)]);
      }
      equipmentsByTag := equipmentsByTag[tag := Ref(EquipmentId(mode, tag), tag)];
      stats := stats.(equipmentsCreated := stats.equipmentsCreated + 1);
    }

    method EnsurePartner(codeInput: string, nameInput: string)
      requires ok
      modifies this
      ensures View() == LegacyImport.EnsurePartner(mode, old(View()), codeInput, nameInput)
    {
      hide CleanCode, CleanText, PartnerId, CreatePartner;
      var code := CleanCode(codeInput, NO_PARTNER);
      if code !in partnersByCode {
        StorePartner(code, CleanText(nameInput, code), PartnerId(mode, code));
      }
    }

    method LoadPartners(partners: seq<LegacyPartner>)
      requires ok
      modifies this
      ensures View() == ImportPartners(mode, old(View()), partners)
    {
      hide PartnerCode, LegacyImport.EnsurePartner;
      var i := 0;
      assert partners[0..] == partners;
      while i < |partners|
        invariant 0 <= i <= |partners| && ok
        invariant ImportPartners(mode, View(), partners[i..]) == ImportPartners(mode, old(View()), partners)
      {
        var code := PartnerCode(partners[i]);
        assert partners[i..][1..] == partners[i + 1..];
        if code in partnersByCode {
          stats := stats.(partnersSkipped := stats.partnersSkipped + 1);
        } else {
          EnsurePartner(code, partners[i].name);
        }
        i := i + 1;
        if !ok {
          FailedPartners(mode, View(), partners[i..]);
          return;
        }
      }
    }

    method FindFallback()
      modifies this
      ensures View() == ReadFallback(old(View()))
    {
      fallbackPartner := if NO_PARTNER in partnersByCode then Some(partnersByCode[NO_PARTNER]) else None;
    }

    method EnsureFallbackPartner()
      requires ok
      modifies this
      ensures View() == EnsureFallback(mode, old(View()))
    {
      hide PartnerId, CreatePartner;
      fallbackUsed := true;
      if fallbackPartner.None? {
        var id := if mode.DryRun? then "dry-run-fallback-partner" else PartnerId(mode, NO_PARTNER);
        StorePartner(NO_PARTNER, "Legado sem parceiro identificado", id);
        if ok {
          fallbackPartner := Some(Ref(id, NO_PARTNER));
        }
      }
    }

    method LoadUnit(codes: map<string, string>, u: LegacyUnit)
      requires ok
      modifies this
      ensures View() == UnitStep(mode, codes, old(View()), u)
    {
      hide UnitCode, UnitPartnerCode, EnsureFallback, CleanText, OrNull, CreateUnit;
      var code := UnitCode(codes, u);
      if code in unitsByCode {
        unitByLegacyKey := unitByLegacyKey[u.key := unitsByCode[code]];
        stats := stats.(unitsSkipped := stats.unitsSkipped + 1);
        return;
      }
      var partnerCode := UnitPartnerCode(u);
      if partnerCode !in partnersByCode {
        EnsureFallbackPartner();
        if !ok {
          return;
        }
        Attach(u, code, fallbackPartner.value);
      } else {
        Attach(u, code, partnersByCode[partnerCode]);
      }
    }

    method Attach(u: LegacyUnit, code: string, partner: Ref)
      requires ok
      modifies this
      ensures View() == AttachUnit(mode, old(View()), u, code, partner)
    {
      hide CleanText, OrNull, CreateUnit;
      if partner.code == NO_PARTNER {
        stats := stats.(unitsWithoutPartner := stats.unitsWithoutPartner + 1);
      }
      StoreUnit(code, UnitData(CleanText(u.name, code), OrNull(CleanText(u.city, "")),
                               OrNull(CleanText(u.state, "")), partner.id));
      if code in unitsByCode {
        unitByLegacyKey := unitByLegacyKey[u.key := unitsByCode[code]];
      }
    }

    method LoadUnits(codes: map<string, string>, units: seq<LegacyUnit>)
      requires ok
      modifies this
      ensures View() == ImportUnits(mode, codes, old(View()), units)
    {
      hide UnitStep;
      var i := 0;
      assert units[0..] == units;
      while i < |units|
        invariant 0 <= i <= |units| && ok
        invariant ImportUnits(mode, codes, View(), units[i..]) == ImportUnits(mode, codes, old(View()), units)
      {
        assert units[i..][1..] == units[i + 1..];
        LoadUnit(codes, units[i]);
        i := i + 1;
        if !ok {
          FailedUnits(mode, codes, View(), units[i..]);
          return;
        }
      }
    }

    method EnsureStock()
      requires ok
      modifies this
      ensures View() == EnsureStockUnit(mode, old(View()))
    {
      hide LegacyImport.EnsurePartner, CreateUnit, CleanCode;
      EnsurePartner(STARLINK_PARTNER, "Starlink");
      if !ok || STOCK_UNIT in unitsByCode {
        return;
      }
      var partner := partnersByCode[CleanCode(STARLINK_PARTNER, NO_PARTNER)];
      stats := stats.(stockUnitCreated := true);
      StoreUnit(STOCK_UNIT, UnitData("Estoque legado de Starlinks", None, None, partner.id));
    }

    method LoadEquipment(e: LegacyEquipment)
      requires ok
      modifies this
      ensures View() == EquipmentStep(mode, old(View()), e)
    {
      hide TagOf, CleanCode, EnsureStockUnit, CreateEquipment, CleanText, OrNull, Lower;
      var tag := TagOf(e);
      if tag in equipmentsByTag {
        stats := stats.(equipmentsSkipped := stats.equipmentsSkipped + 1);
        return;
      }
      var unitCode := CleanCode(e.unitCode, "");
      var unit: Option<Ref> := None;
      if e.unitKey != "" && e.unitKey in unitByLegacyKey {
        unit := Some(unitByLegacyKey[e.unitKey]);
      } else if unitCode != "" && unitCode in unitsByCode {
        unit := Some(unitsByCode[unitCode]);
      }
      if unit.None? && e.source == "starlinks" {
        EnsureStock();
        if !ok {
          return;
        }
        unit := Some(unitsByCode[STOCK_UNIT]);
      }
      if unit.None? {
        stats := stats.(equipmentsWithoutUnit := stats.equipmentsWithoutUnit + 1);
        return;
      }
      StoreEquipment(tag, EquipmentData(CleanText(e.name, tag), Lower(CleanText(e.kind, "legacy")),
                                        OrNull(CleanText(e.serialNumber, "")), Lower(CleanText(e.status, "active")),
                                            unit.value.id));
    }

    method LoadEquipments(equipments: seq<LegacyEquipment>)
      requires ok
      modifies this
      ensures View() == ImportEquipments(mode, old(View()), equipments)
    {
      hide EquipmentStep;
      var i := 0;
      assert equipments[0..] == equipments;
      while i < |equipments|
        invariant 0 <= i <= |equipments| && ok
        invariant ImportEquipments(mode, View(), equipments[i..]) == ImportEquipments(mode, old(View()), equipments)
      {
        assert equipments[i..][1..] == equipments[i + 1..];
        LoadEquipment(equipments[i]);
        i := i + 1;
        if !ok {
          FailedEquipments(mode, View(), equipments[i..]);
          return;
        }
      }
    }
  }

  /** The whole script, from the rows read to the rows and the report left behind. */
  method RunImport(mode: Mode, db: Db, b: Bundle) returns (after: Db, stats: Stats, ok: bool)
    ensures var t := ImportBundle(mode, db, b);
            after == t.db && stats == t.stats && ok == t.ok
  {
    hide Begin, UnitCodes, ImportPartners, ImportUnits, ImportEquipments, ReadFallback;
    var codes := BuildLegacyUnitCodeMap(b.units);
    var importer := new Importer(mode, db, b.units, codes);
    BeginIsOk(db, b.units);
    importer.LoadPartners(b.partners);
    ghost var partnersDone := importer.View();
    if importer.ok {
      importer.FindFallback();
      FindFallbackKeepsOk(partnersDone);
      importer.LoadUnits(codes, b.units);
      if importer.ok {
        importer.LoadEquipments(b.equipments);
      } else {
        FailedEquipments(mode, importer.View(), b.equipments);
      }
    } else {
      FailedAfterPartners(mode, codes, partnersDone, b);
    }
    after, stats, ok := importer.db, importer.stats, importer.ok;
  }

  lemma BeginIsOk(db: Db, units: seq<LegacyUnit>)
    ensures Begin(db, units).ok
  {
  }

  lemma FindFallbackKeepsOk(s: State)
    ensures ReadFallback(s).ok == s.ok && ReadFallback(s).db == s.db && ReadFallback(s).stats == s.stats
  {
  }

  lemma FailedAfterPartners(mode: Mode, codes: map<string, string>, s: State, b: Bundle)
    requires !s.ok
    ensures ImportEquipments(mode, ImportUnits(mode, codes, ReadFallback(s), b.units), b.equipments) == ReadFallback(s)
    ensures ReadFallback(s).ok == s.ok && ReadFallback(s).db == s.db && ReadFallback(s).stats == s.stats
  {
    hide ImportUnits, ImportEquipments;
    FailedUnits(mode, codes, ReadFallback(s), b.units);
    FailedEquipments(mode, ReadFallback(s), b.equipments);
  }
}
