/**
 References written by the import: every unit row points at a partner row and every equipment row at a
 unit row, whichever of the maps, the fallback partner or the stock unit supplied it.
 */
module LegacyReferences {
  import opened LegacyCodes
  import opened LegacyImport
  import opened LegacyReport
  import opened Options
  import opened Text

  ghost predicate HasId<D>(rows: seq<Row<D>>, id: string) {
    exists i :: 0 <= i < |rows| && rows[i].id == id
  }

  /** Every reference of the map is to a row of the table. */
  ghost predicate Points<D>(known: map<string, Ref>, rows: seq<Row<D>>) {
    forall k :: k in known ==> HasId(rows, known[k].id)
  }

  /** No dangling reference in the tables. */
  ghost predicate Intact(db: Db) {
    && (forall i :: 0 <= i < |db.units| ==> HasId(db.partners, db.units[i].data.partnerId))
    && forall i :: 0 <= i < |db.equipments| ==> HasId(db.units, db.equipments[i].data.unitId)
  }

  /** The tables are intact, and so is every reference the script holds. */
  ghost predicate Wired(s: State) {
    && Intact(s.db)
    && Points(s.partnersByCode, s.db.partners)
    && Points(s.unitsByCode, s.db.units) && Points(s.unitByLegacyKey, s.db.units)
    && (s.fallback.Some? ==> HasId(s.db.partners, s.fallback.value.id))
  }

  lemma HasIdGrows<D>(rows: seq<Row<D>>, row: Row<D>, id: string)
    ensures HasId(rows, id) ==> HasId(rows + [row], id)
    ensures HasId(rows + [row], row.id)
  {
    assert (rows + [row])[|rows|] == row;
    if HasId(rows, id) {
      var i :| 0 <= i < |rows| && rows[i].id == id;
      assert (rows + [row])[i].id == id;
    }
  }

  lemma PointsGrows<D>(known: map<string, Ref>, rows: seq<Row<D>>, row: Row<D>, code: string)
    requires Points(known, rows)
    ensures Points(known, rows + [row]) && Points(known[code := Ref(row.id, code)], rows + [row])
  {
    hide HasId;
    forall k | k in known ensures HasId(rows + [row], known[k].id) {
      HasIdGrows(rows, row, known[k].id);
    }
    HasIdGrows(rows, row, row.id);
  }

  lemma {:induction false} IndexPoints<D>(rows: seq<Row<D>>)
    ensures Points(Index(rows), rows)
  {
    if rows != [] {
      var last := |rows| - 1;
      IndexPoints(rows[..last]);
      assert rows == rows[..last] + [rows[last]];
      hide HasId, CleanCode;
      forall k | k in Index(rows) ensures HasId(rows, Index(rows)[k].id) {
        HasIdGrows(rows[..last], rows[last], Index(rows)[k].id);
      }
    }
  }

  // ---------- new rows ----------

  lemma IntactWithPartner(db: Db, row: Row<PartnerData>)
    requires Intact(db)
    ensures Intact(db.(partners := db.partners + [row]))
  {
    hide HasId;
    forall i | 0 <= i < |db.units| ensures HasId(db.partners + [row], db.units[i].data.partnerId) {
      HasIdGrows(db.partners, row, db.units[i].data.partnerId);
    }
  }

  lemma IntactWithUnit(db: Db, row: Row<UnitData>)
    requires Intact(db) && HasId(db.partners, row.data.partnerId)
    ensures Intact(db.(units := db.units + [row]))
  {
    hide HasId;
    forall i | 0 <= i < |db.equipments| ensures HasId(db.units + [row], db.equipments[i].data.unitId) {
      HasIdGrows(db.units, row, db.equipments[i].data.unitId);
    }
  }

  lemma IntactWithEquipment(db: Db, row: Row<EquipmentData>)
    requires Intact(db) && HasId(db.units, row.data.unitId)
    ensures Intact(db.(equipments := db.equipments + [row]))
  {
    hide HasId;
  }

  lemma CreatePartnerWires(live: Mode, s: State, code: string, name: string, id: string)
    requires live.Real? && Wired(s) && s.ok
    ensures var t := CreatePartner(live, s, code, name, id);
            t.ok ==> Wired(t) && HasId(t.db.partners, id)
  {
    hide HasCode, HasId, Points, Intact;
    var row := Row(id, code, PartnerData(name));
    IntactWithPartner(s.db, row);
    PointsGrows(s.partnersByCode, s.db.partners, row, code);
    HasIdGrows(s.db.partners, row, if s.fallback.Some? then s.fallback.value.id else id);
  }

  lemma EnsurePartnerWires(live: Mode, s: State, code: string, name: string)
    requires live.Real? && Wired(s) && s.ok
    ensures EnsurePartner(live, s, code, name).ok ==> Wired(EnsurePartner(live, s, code, name))
  {
    hide CleanCode, CleanText, PartnerId, CreatePartner, Wired, HasId;
    var clean := CleanCode(code, NO_PARTNER);
    CreatePartnerWires(live, s, clean, CleanText(name, clean), PartnerId(live, clean));
  }

  lemma WiredBeyondStats(s: State, stats: Stats, asked: bool)
    requires Wired(s)
    ensures Wired(s.(stats := stats)) && Wired(s.(fallbackUsed := asked))
  {
    hide HasId, Points, Intact;
  }

  lemma {:induction false} PartnersWire(live: Mode, s: State, ps: seq<LegacyPartner>)
    requires live.Real? && Wired(s) && s.ok
    ensures ImportPartners(live, s, ps).ok ==> Wired(ImportPartners(live, s, ps))
    decreases |ps|
  {
    hide EnsurePartner, PartnerCode, Wired;
    if ps != [] {
      var next := PartnerStep(live, s, ps[0]);
      WiredBeyondStats(s, next.stats, false);
      EnsurePartnerWires(live, s, PartnerCode(ps[0]), ps[0].name);
      FailedPartners(live, next, ps[1..]);
      if next.ok {
        PartnersWire(live, next, ps[1..]);
      }
    }
  }

  lemma EnsureFallbackWires(live: Mode, s: State)
    requires live.Real? && Wired(s) && s.ok
    ensures var t := EnsureFallback(live, s);
            t.ok ==> Wired(t) && HasId(t.db.partners, t.fallback.value.id)
  {
    hide CreatePartner, PartnerId, HasId, Points, Intact;
    var asked := s.(fallbackUsed := true);
    CreatePartnerWires(live, asked, NO_PARTNER, "Legado sem parceiro identificado", PartnerId(live, NO_PARTNER));
  }

  lemma CreateUnitWires(live: Mode, s: State, code: string, data: UnitData)
    requires live.Real? && Wired(s) && s.ok && HasId(s.db.partners, data.partnerId)
    ensures CreateUnit(live, s, code, data).ok ==> Wired(CreateUnit(live, s, code, data))
  {
    hide HasCode, HasId, Points, Intact, UnitId;
    var row := Row(UnitId(live, code), code, data);
    IntactWithUnit(s.db, row);
    PointsGrows(s.unitsByCode, s.db.units, row, code);
    PointsGrows(s.unitByLegacyKey, s.db.units, row, code);
  }

  lemma BindKeyWires(s: State, key: string, code: string)
    requires Wired(s) && code in s.unitsByCode
    ensures Wired(BindKey(s, key, code))
  {
    hide HasId, Intact;
  }

  lemma AttachUnitWires(live: Mode, s: State, u: LegacyUnit, code: string, partner: Ref)
    requires live.Real? && Wired(s) && s.ok && HasId(s.db.partners, partner.id)
    ensures AttachUnit(live, s, u, code, partner).ok ==> Wired(AttachUnit(live, s, u, code, partner))
  {
    hide CleanText, OrNull, CreateUnit, Wired, HasId;
    var stats := s.stats.(unitsWithoutPartner := s.stats.unitsWithoutPartner + 1);
    WiredBeyondStats(s, stats, false);
    var counted := if partner.code == NO_PARTNER then s.(stats := stats) else s;
    var data := UnitData(CleanText(u.name, code), OrNull(CleanText(u.city, "")), OrNull(CleanText(u.state, "")),
                         partner.id);
    CreateUnitWires(live, counted, code, data);
    var t := CreateUnit(live, counted, code, data);
    if t.ok && code in t.unitsByCode {
      BindKeyWires(t, u.key, code);
    }
  }

  lemma KnownPartner(s: State, code: string)
    requires Wired(s) && code in s.partnersByCode
    ensures HasId(s.db.partners, s.partnersByCode[code].id)
  {
    hide HasId, Intact;
  }

  lemma {:induction false} UnitsWire(live: Mode, codes: map<string, string>, s: State, us: seq<LegacyUnit>)
    requires live.Real? && Wired(s) && s.ok
    ensures ImportUnits(live, codes, s, us).ok ==> Wired(ImportUnits(live, codes, s, us))
    decreases |us|
  {
    hide UnitStep, Wired;
    if us != [] {
      var next := UnitStep(live, codes, s, us[0]);
      UnitStepWires(live, codes, s, us[0]);
      FailedUnits(live, codes, next, us[1..]);
      if next.ok {
        UnitsWire(live, codes, next, us[1..]);
      }
    }
  }

  lemma UnitStepWires(live: Mode, codes: map<string, string>, s: State, u: LegacyUnit)
    requires live.Real? && Wired(s) && s.ok
    ensures UnitStep(live, codes, s, u).ok ==> Wired(UnitStep(live, codes, s, u))
  {
    hide UnitCode, UnitPartnerCode, EnsureFallback, AttachUnit, Wired, HasId, BindKey;
    var code := UnitCode(codes, u);
    if code in s.unitsByCode {
      BindKeyWires(s, u.key, code);
      WiredBeyondStats(BindKey(s, u.key, code), s.stats.(unitsSkipped := s.stats.unitsSkipped + 1), false);
    } else if UnitPartnerCode(u) in s.partnersByCode {
      KnownPartner(s, UnitPartnerCode(u));
      AttachUnitWires(live, s, u, code, s.partnersByCode[UnitPartnerCode(u)]);
    } else {
      EnsureFallbackWires(live, s);
      EnsureFallbackFacts(live, s);
      var ready := EnsureFallback(live, s);
      if ready.ok {
        AttachUnitWires(live, ready, u, code, ready.fallback.value);
      }
    }
  }

  lemma EnsureStockUnitWires(live: Mode, s: State)
    requires live.Real? && Wired(s) && s.ok
    ensures EnsureStockUnit(live, s).ok ==> Wired(EnsureStockUnit(live, s))
  {
    hide EnsurePartner, CreateUnit, CleanCode, Wired, HasId;
    EnsurePartnerWires(live, s, STARLINK_PARTNER, "Starlink");
    var ready := EnsurePartner(live, s, STARLINK_PARTNER, "Starlink");
    if ready.ok && STOCK_UNIT !in ready.unitsByCode {
      var stats := ready.stats.(stockUnitCreated := true);
      WiredBeyondStats(ready, stats, false);
      var partner := CleanCode(STARLINK_PARTNER, NO_PARTNER);
      KnownPartner(ready, partner);
      CreateUnitWires(live, ready.(stats := stats), STOCK_UNIT,
                      UnitData("Estoque legado de Starlinks", None, None, ready.partnersByCode[partner].id));
    }
  }

  lemma AttachEquipmentWires(live: Mode, s: State, e: LegacyEquipment, unit: Ref)
    requires live.Real? && Wired(s) && s.ok && HasId(s.db.units, unit.id)
    ensures AttachEquipment(live, s, e, unit).ok ==> Wired(AttachEquipment(live, s, e, unit))
  {
    hide TagOf, CleanText, OrNull, Lower, HasCode, HasId, Points, Intact, EquipmentId;
    var data := EquipmentData(CleanText(e.name, TagOf(e)), Lower(CleanText(e.kind, "legacy")),
                              OrNull(CleanText(e.serialNumber, "")), Lower(CleanText(e.status, "active")), unit.id);
    IntactWithEquipment(s.db, Row(EquipmentId(live, TagOf(e)), TagOf(e), data));
  }

  lemma KnownUnit(s: State, e: LegacyEquipment)
    requires Wired(s)
    ensures UnitFor(s, e).Some? ==> HasId(s.db.units, UnitFor(s, e).value.id)
    ensures STOCK_UNIT in s.unitsByCode ==> HasId(s.db.units, s.unitsByCode[STOCK_UNIT].id)
  {
    hide HasId, Intact, CleanCode;
  }

  lemma EquipmentStepWires(live: Mode, s: State, e: LegacyEquipment)
    requires live.Real? && Wired(s) && s.ok
    ensures EquipmentStep(live, s, e).ok ==> Wired(EquipmentStep(live, s, e))
  {
    hide TagOf, EnsureStockUnit, AttachEquipment, UnitFor, Wired, HasId;
    WiredBeyondStats(s, EquipmentStep(live, s, e).stats, false);
    KnownUnit(s, e);
    if TagOf(e) !in s.equipmentsByTag {
      if UnitFor(s, e).Some? {
        AttachEquipmentWires(live, s, e, UnitFor(s, e).value);
      } else if e.source == "starlinks" {
        EnsureStockUnitWires(live, s);
        var ready := EnsureStockUnit(live, s);
        if ready.ok {
          KnownUnit(ready, e);
          AttachEquipmentWires(live, ready, e, ready.unitsByCode[STOCK_UNIT]);
        }
      }
    }
  }

  lemma {:induction false} EquipmentsWire(live: Mode, s: State, es: seq<LegacyEquipment>)
    requires live.Real? && Wired(s) && s.ok
    ensures ImportEquipments(live, s, es).ok ==> Wired(ImportEquipments(live, s, es))
    decreases |es|
  {
    hide EquipmentStep, Wired;
    if es != [] {
      var next := EquipmentStep(live, s, es[0]);
      EquipmentStepWires(live, s, es[0]);
      FailedEquipments(live, next, es[1..]);
      if next.ok {
        EquipmentsWire(live, next, es[1..]);
      }
    }
  }

  lemma BeginWired(db: Db, units: seq<LegacyUnit>)
    requires Intact(db)
    ensures Wired(Begin(db, units)) && Begin(db, units).ok
  {
    hide Index, UnitCodes, ResolvedDuplicates, HasId, Intact;
    IndexPoints(db.partners);
    IndexPoints(db.units);
  }

  lemma ReadFallbackWires(s: State)
    requires Wired(s)
    ensures Wired(ReadFallback(s)) && ReadFallback(s).ok == s.ok
  {
    hide HasId, Intact;
  }

  /** No successful real run of any bundle writes a dangling reference, whatever intact tables it starts from. */
  lemma ImportKeepsReferences(live: Mode, db: Db, b: Bundle)
    requires live.Real? && Intact(db) && ImportBundle(live, db, b).ok
    ensures Intact(ImportBundle(live, db, b).db)
  {
    var afterPartners, beforeUnits, afterUnits := Stages(live, db, b);
    hide ImportBundle, Begin, UnitCodes, ImportPartners, ImportUnits, ImportEquipments, ReadFallback, Wired;
    BeginWired(db, b.units);
    PartnersWire(live, Begin(db, b.units), b.partners);
    ReadFallbackWires(afterPartners);
    UnitsWire(live, UnitCodes(b.units), beforeUnits, b.units);
    EquipmentsWire(live, afterUnits, b.equipments);
    WiredIsIntact(ImportBundle(live, db, b));
  }

  lemma WiredIsIntact(s: State)
    requires Wired(s)
    ensures Intact(s.db)
  {
  }
}
