/**
 What every exported bundle guarantees to the importer, and the exporter's loops.
 */
module LegacyBundle {
  import opened LegacyCodes
  import opened LegacyExport
  import opened LegacyImport
  import opened LegacyReport
  import opened LegacyRerun
  import opened Text

  // ---------- the invariant of the dictionaries ----------

  ghost predicate PartnersFit(partners: Dict<PartnerEntry>) {
    && Valid(partners)
    && forall c :: c in partners.at ==> partners.at[c].code == c && IsClean(c)
  }

  ghost predicate UnitFits(key: string, u: UnitEntry, partners: map<string, PartnerEntry>) {
    key != "" && u.row.key == key && IsClean(u.row.code) && u.row.partnerCode in partners
  }

  ghost predicate UnitsFit(units: Dict<UnitEntry>, partners: map<string, PartnerEntry>) {
    Valid(units) && forall k :: k in units.at ==> UnitFits(k, units.at[k], partners)
  }

  /** A tag cleaning leaves something of, on a unit that is there or from a Starlink. */
  ghost predicate EquipmentFits(tag: string, e: LegacyEquipment, units: map<string, UnitEntry>) {
    && e.tag == tag && tag != "" && IsAlnum(tag[0])
    && (e.source == "starlinks" || (e.unitKey != "" && e.unitKey in units))
  }

  ghost predicate EquipmentsFit(equipments: Dict<LegacyEquipment>, units: map<string, UnitEntry>) {
    Valid(equipments) && forall t :: t in equipments.at ==> EquipmentFits(t, equipments.at[t], units)
  }

  ghost predicate KeysFit(found: map<string, string>, units: map<string, UnitEntry>) {
    forall x :: x in found ==> found[x] in units
  }

  ghost predicate Fits(g: Gathered) {
    && PartnersFit(g.partners) && UnitsFit(g.units, g.partners.at) && EquipmentsFit(g.equipments, g.units.at)
    && KeysFit(g.unitByContactId, g.units.at) && KeysFit(g.unitByNormName, g.units.at)
  }

  lemma ConstantSlugs()
    ensures IsSlug("SEM-PARCEIRO") && IsSlug("GRP") && IsSlug("UNIDADE") && IsSlug("SEM-ID")
  {
    var s := "SEM-PARCEIRO";
    assert forall i :: 0 <= i < |s| ==> IsAlnum(s[i]) || s[i] == '-';
    assert s[3] == '-' && forall i :: 0 <= i < |s| && s[i] == '-' ==> i == 3;
    var t := "SEM-ID";
    assert forall i :: 0 <= i < |t| ==> IsAlnum(t[i]) || t[i] == '-';
    assert t[3] == '-' && forall i :: 0 <= i < |t| && t[i] == '-' ==> i == 3;
  }

  lemma AddPartnerFits(fold: string -> string, partners: Dict<PartnerEntry>, name: string)
    requires PartnersFit(partners)
    ensures var t := AddPartner(fold, partners, name);
            PartnersFit(t) && partners.at.Keys <= t.at.Keys
  {
    hide Slug, IsClean, IsSlug;
    ConstantSlugs();
    SlugIsClean(fold, name, "SEM-PARCEIRO", 32);
    var code := PartnerSlug(fold, name);
    PutValid(partners, code, PartnerEntry(code, Or(name, code), [], [], 0, 0));
  }

  lemma EditPartnerFits(partners: Dict<PartnerEntry>, code: string, p: PartnerEntry)
    requires PartnersFit(partners) && code in partners.at && p.code == code
    ensures PartnersFit(Put(partners, code, p)) && Put(partners, code, p).at.Keys == partners.at.Keys
  {
    hide IsClean;
    PutValid(partners, code, p);
  }

  lemma PartnersAfterFits(fold: string -> string, partners: Dict<PartnerEntry>, row: Contact)
    requires PartnersFit(partners)
    ensures var t := PartnersAfter(fold, partners, row);
            && PartnersFit(t) && partners.at.Keys <= t.at.Keys
            && PartnerSlug(fold, Or(row.partner, "Sem parceiro")) in t.at
  {
    hide PartnersFit, PartnerSlug, AddPartner, Or, Put;
    var name := Or(row.partner, "Sem parceiro");
    AddPartnerFits(fold, partners, name);
    var added := AddPartner(fold, partners, name);
    var main := added.at[PartnerSlug(fold, name)];
    EntryCode(added, PartnerSlug(fold, name));
    var edited := main.(primaryUnits := main.primaryUnits + 1, contactIds := main.contactIds + [row.id]);
    EditPartnerFits(added, PartnerSlug(fold, name), edited);
    if row.backupPartner != "" {
      var counted := Put(added, PartnerSlug(fold, name), edited);
      AddPartnerFits(fold, counted, row.backupPartner);
      var withBackup := AddPartner(fold, counted, row.backupPartner);
      EntryCode(withBackup, PartnerSlug(fold, row.backupPartner));
      var backup := withBackup.at[PartnerSlug(fold, row.backupPartner)];
      EditPartnerFits(withBackup, PartnerSlug(fold, row.backupPartner), backup.(backupUnits := backup.backupUnits + 1));
    }
  }

  lemma EntryCode(partners: Dict<PartnerEntry>, code: string)
    requires PartnersFit(partners) && code in partners.at
    ensures partners.at[code].code == code
  {
    hide IsClean, Valid;
  }

  lemma UnitSlugClean(fold: string -> string, row: Contact)
    ensures IsClean(UnitSlug(fold, row)) && UnitKey(fold, row) != ""
  {
    hide Slug, IsClean, IsSlug, Norm;
    ConstantSlugs();
    SlugIsClean(fold, row.group, "GRP", 14);
    SlugIsClean(fold, row.unitName, "UNIDADE", 42);
    CleanConcat(Slug(fold, row.group, "GRP", 14), Slug(fold, row.unitName, "UNIDADE", 42));
  }

  lemma UnitsAfterFit(fold: string -> string, g: Gathered, row: Contact)
    requires Fits(g)
    ensures var t := ContactStep(fold, g, row);
            UnitsFit(t.units, t.partners.at) && g.units.at.Keys <= t.units.at.Keys && UnitKey(fold, row) in t.units.at
  {
    hide PartnersFit, EquipmentsFit, KeysFit, PartnersAfter, UnitSlug, UnitKey, PartnerSlug, WithOnu, IsClean,
        AddText, Norm;
    PartnersAfterFits(fold, g.partners, row);
    UnitSlugClean(fold, row);
    PutValid(g.units, UnitKey(fold, row), UnitAfter(fold, g.units, row));
  }

  lemma OnuTagStarts(unitCode: string, link: nat)
    ensures OnuTag(unitCode, link) != "" && OnuTag(unitCode, link)[0] == 'O'
  {
  }

  lemma WithOnuFits(fold: string -> string, equipments: Dict<LegacyEquipment>, units: map<string, UnitEntry>,
                    row: Contact, link: nat)
    requires EquipmentsFit(equipments, units) && UnitKey(fold, row) in units && UnitKey(fold, row) != ""
    ensures EquipmentsFit(WithOnu(fold, equipments, row, link), units)
  {
    hide OnuTag, UnitSlug, UnitKey;
    if row.macOnu != "" {
      var tag := OnuTag(UnitSlug(fold, row), link);
      OnuTagStarts(UnitSlug(fold, row), link);
      var e := LegacyEquipment(tag, "ONU " + row.unitName, "onu", row.macOnu, "active", UnitKey(fold, row),
                               UnitSlug(fold, row),
                               "contatos.mac_onu", row.id);
      PutValid(equipments, tag, e);
    }
  }

  lemma EquipmentsStay(equipments: Dict<LegacyEquipment>, units: map<string, UnitEntry>, more: map<string, UnitEntry>)
    requires EquipmentsFit(equipments, units) && units.Keys <= more.Keys
    ensures EquipmentsFit(equipments, more)
  {
    hide Valid;
  }

  lemma KeysStay(found: map<string, string>, units: map<string, UnitEntry>, more: map<string, UnitEntry>, x: string,
                 key: string)
    requires KeysFit(found, units) && units.Keys <= more.Keys && key in more
    ensures KeysFit(found[x := key], more)
  {
  }

  lemma ContactStepFits(fold: string -> string, g: Gathered, row: Contact)
    requires Fits(g)
    ensures Fits(ContactStep(fold, g, row))
  {
    hide PartnersFit, EquipmentsFit, UnitsFit, KeysFit, PartnersAfter, UnitSlug, UnitKey, WithOnu, UnitAfter, Norm,
        IsClean, Put;
    var t := ContactStep(fold, g, row);
    PartnersAfterFits(fold, g.partners, row);
    UnitsAfterFit(fold, g, row);
    UnitSlugClean(fold, row);
    EquipmentsStay(g.equipments, g.units.at, t.units.at);
    WithOnuFits(fold, g.equipments, t.units.at, row, UnitAfter(fold, g.units, row).links);
    KeysStay(g.unitByContactId, g.units.at, t.units.at, row.id, UnitKey(fold, row));
    KeysStay(g.unitByNormName, g.units.at, t.units.at, Norm(fold, row.unitName), UnitKey(fold, row));
  }

  lemma UnitsStay(units: Dict<UnitEntry>, partners: map<string, PartnerEntry>, more: map<string, PartnerEntry>)
    requires UnitsFit(units, partners) && partners.Keys <= more.Keys
    ensures UnitsFit(units, more)
  {
    hide Valid, IsClean;
  }

  lemma PartnerRowStepFits(fold: string -> string, g: Gathered, row: PartnerRow)
    requires Fits(g)
    ensures Fits(PartnerRowStep(fold, g, row))
  {
    hide PartnersFit, EquipmentsFit, UnitsFit, KeysFit, PartnerSlug, AddPartner, Or, Put;
    var name := Or(row.partner, "Sem parceiro");
    AddPartnerFits(fold, g.partners, name);
    var added := AddPartner(fold, g.partners, name);
    EntryCode(added, PartnerSlug(fold, name));
    var entry := added.at[PartnerSlug(fold, name)];
    EditPartnerFits(added, PartnerSlug(fold, name), entry.(contacts := entry.contacts + [row.id]));
    UnitsStay(g.units, g.partners.at, PartnerRowStep(fold, g, row).partners.at);
  }

  lemma StarlinkStepFits(fold: string -> string, g: Gathered, row: Starlink)
    requires Fits(g)
    ensures Fits(StarlinkStep(fold, g, row))
  {
    hide PartnersFit, UnitsFit, KeysFit, StarlinkUnit, Slug, Or;
    var t := StarlinkStep(fold, g, row);
    if Or(row.kitSerial, row.antennaSerial) != "" {
      var tag := StarlinkTag(fold, row);
      PutValid(g.equipments, tag, t.equipments.at[tag]);
    }
  }

  lemma {:induction false} AfterContactsFits(fold: string -> string, g: Gathered, rows: seq<Contact>)
    requires Fits(g)
    ensures Fits(AfterContacts(fold, g, rows))
    decreases |rows|
  {
    hide ContactStep, Fits;
    if rows != [] {
      ContactStepFits(fold, g, rows[0]);
      AfterContactsFits(fold, ContactStep(fold, g, rows[0]), rows[1..]);
    }
  }

  lemma {:induction false} AfterPartnerRowsFits(fold: string -> string, g: Gathered, rows: seq<PartnerRow>)
    requires Fits(g)
    ensures Fits(AfterPartnerRows(fold, g, rows))
    decreases |rows|
  {
    hide PartnerRowStep, Fits;
    if rows != [] {
      PartnerRowStepFits(fold, g, rows[0]);
      AfterPartnerRowsFits(fold, PartnerRowStep(fold, g, rows[0]), rows[1..]);
    }
  }

  lemma {:induction false} AfterStarlinksFits(fold: string -> string, g: Gathered, rows: seq<Starlink>)
    requires Fits(g)
    ensures Fits(AfterStarlinks(fold, g, rows))
    decreases |rows|
  {
    hide StarlinkStep, Fits;
    if rows != [] {
      StarlinkStepFits(fold, g, rows[0]);
      AfterStarlinksFits(fold, StarlinkStep(fold, g, rows[0]), rows[1..]);
    }
  }

  lemma EmptyFits()
    ensures Fits(EMPTY_GATHERED)
  {
  }

  lemma GatherFits(fold: string -> string, contacts: seq<Contact>, partnerRows: seq<PartnerRow>,
                   starlinks: seq<Starlink>)
    ensures Fits(Gather(fold, contacts, partnerRows, starlinks))
  {
    hide Fits, AfterContacts, AfterPartnerRows, AfterStarlinks;
    EmptyFits();
    var withContacts := AfterContacts(fold, EMPTY_GATHERED, contacts);
    AfterContactsFits(fold, EMPTY_GATHERED, contacts);
    var withPartners := AfterPartnerRows(fold, withContacts, partnerRows);
    AfterPartnerRowsFits(fold, withContacts, partnerRows);
    AfterStarlinksFits(fold, withPartners, starlinks);
  }

  /** The bundle of `build_bundle`. */
  function Exported(fold: string -> string, contacts: seq<Contact>, partnerRows: seq<PartnerRow>,
                    starlinks: seq<Starlink>): Bundle {
    GatherFits(fold, contacts, partnerRows, starlinks);
    ToBundle(Gather(fold, contacts, partnerRows, starlinks))
  }

  // ---------- what the importer may rely on ----------

  lemma FitsValid(g: Gathered)
    requires Fits(g)
    ensures Valid(g.partners) && Valid(g.units) && Valid(g.equipments)
  {
    hide KeysFit, Valid;
  }

  lemma {:induction false} SortedMembers<V>(d: Dict<V>, key: V -> string)
    requires Valid(d)
    ensures forall i :: 0 <= i < |SortByText(Values(d), key)| ==>
              exists k :: k in d.at && d.at[k] == SortByText(Values(d), key)[i]
    ensures forall k :: k in d.at ==> d.at[k] in SortByText(Values(d), key)
  {
    hide SortByText;
    assert |Values(d)| == |d.keys|;
    SortKeepsBag(Values(d), key);
    var sorted := SortByText(Values(d), key);
    forall i | 0 <= i < |sorted| ensures exists k :: k in d.at && d.at[k] == sorted[i] {
      assert sorted[i] in multiset(sorted);
      assert sorted[i] in Values(d);
      var j :| 0 <= j < |Values(d)| && Values(d)[j] == sorted[i];
      assert d.keys[j] in d.at && d.at[d.keys[j]] == sorted[i];
    }
    forall k | k in d.at ensures d.at[k] in sorted {
      var j :| 0 <= j < |d.keys| && d.keys[j] == k;
      assert Values(d)[j] == d.at[k];
    }
  }

  lemma BundlePartners(g: Gathered)
    requires Fits(g)
    ensures var b := ToBundle(g);
            && (forall i :: 0 <= i < |b.partners| ==> IsClean(b.partners[i].code))
            && forall c :: c in g.partners.at ==> HasPartner(b.partners, c)
  {
    FitsValid(g);
    hide EquipmentsFit, KeysFit, IsClean, UnitFits, SortByText, Values;
    var b := ToBundle(g);
    var sorted := SortByText(Values(g.partners), PartnerText);
    SortedMembers(g.partners, PartnerText);
    forall i | 0 <= i < |b.partners| ensures IsClean(b.partners[i].code) {
      var c :| c in g.partners.at && g.partners.at[c] == sorted[i];
    }
    forall c | c in g.partners.at ensures HasPartner(b.partners, c) {
      var i :| 0 <= i < |sorted| && sorted[i] == g.partners.at[c];
      assert b.partners[i].code == c;
    }
  }

  lemma BundleUnits(g: Gathered)
    requires Fits(g)
    ensures var b := ToBundle(g);
            && (forall i :: 0 <= i < |b.units| ==> IsClean(b.units[i].code) && b.units[i].partnerCode in g.partners.at)
            && forall k :: k in g.units.at ==> HasUnit(b.units, k)
  {
    FitsValid(g);
    hide KeysFit, IsClean, EquipmentFits, SortByText, Values;
    var b := ToBundle(g);
    var sorted := SortByText(Values(g.units), UnitText);
    SortedMembers(g.units, UnitText);
    forall i | 0 <= i < |b.units| ensures IsClean(b.units[i].code) && b.units[i].partnerCode in g.partners.at {
      var k :| k in g.units.at && g.units.at[k] == sorted[i];
      FitUnit(k, g.units.at[k], g.partners.at);
    }
    forall k | k in g.units.at ensures HasUnit(b.units, k) {
      var i :| 0 <= i < |sorted| && sorted[i] == g.units.at[k];
      FitUnit(k, g.units.at[k], g.partners.at);
      assert b.units[i].key == k;
    }
  }

  lemma BundleEquipments(g: Gathered)
    requires Fits(g)
    ensures forall i :: 0 <= i < |ToBundle(g).equipments| ==>
              EquipmentFits(ToBundle(g).equipments[i].tag, ToBundle(g).equipments[i], g.units.at)
  {
    FitsValid(g);
    hide KeysFit, UnitFits, EquipmentFits, SortByText, Values;
    var b := ToBundle(g);
    SortedMembers(g.equipments, EquipmentText);
    forall i | 0 <= i < |b.equipments| ensures EquipmentFits(b.equipments[i].tag, b.equipments[i], g.units.at) {
      var t :| t in g.equipments.at && g.equipments.at[t] == b.equipments[i];
      FitTag(t, g.equipments.at[t], g.units.at);
    }
  }

  lemma FitUnit(key: string, u: UnitEntry, partners: map<string, PartnerEntry>)
    requires UnitFits(key, u, partners)
    ensures u.row.key == key && IsClean(u.row.code) && u.row.partnerCode in partners
  {
  }

  lemma FitTag(tag: string, e: LegacyEquipment, units: map<string, UnitEntry>)
    requires EquipmentFits(tag, e, units)
    ensures e.tag == tag
  {
  }

  /** The bundle is closed: clean partner codes, known partners, a home for every equipment. */
  lemma BundleIsClosed(g: Gathered)
    requires Fits(g) && Valid(g.partners) && Valid(g.units) && Valid(g.equipments)
    ensures Closed(ToBundle(g))
  {
    hide Fits, ToBundle, IsClean, Valid, EquipmentFits, HasPartner, HasUnit;
    BundlePartners(g);
    BundleUnits(g);
    BundleEquipments(g);
    var b := ToBundle(g);
    forall i | 0 <= i < |b.units| ensures HasPartner(b.partners, b.units[i].partnerCode) {
      assert b.units[i].partnerCode in g.partners.at;
    }
    forall i | 0 <= i < |b.equipments|
      ensures b.equipments[i].source == "starlinks"
          || (b.equipments[i].unitKey != "" && HasUnit(b.units, b.equipments[i].unitKey))
    {
      FitHome(b.equipments[i].tag, b.equipments[i], g.units.at);
    }
  }

  lemma FitHome(tag: string, e: LegacyEquipment, units: map<string, UnitEntry>)
    requires EquipmentFits(tag, e, units)
    ensures e.source == "starlinks" || (e.unitKey != "" && e.unitKey in units)
  {
  }

  /** Every exported bundle is closed, whatever the legacy tables hold. */
  lemma ExportIsClosed(fold: string -> string, contacts: seq<Contact>, partnerRows: seq<PartnerRow>,
                       starlinks: seq<Starlink>)
    ensures Closed(Exported(fold, contacts, partnerRows, starlinks))
  {
    var g := Gather(fold, contacts, partnerRows, starlinks);
    GatherFits(fold, contacts, partnerRows, starlinks);
    FitsValid(g);
    assert Exported(fold, contacts, partnerRows, starlinks) == ToBundle(g);
    hide Exported, Gather, Fits, Valid, ToBundle, Closed;
    BundleIsClosed(g);
  }

  lemma DashRunsFirst(s: string, p: char -> bool)
    requires s != "" && !p(s[0])
    ensures DashRuns(s, p, false) != "" && DashRuns(s, p, false)[0] == s[0]
  {
  }

  /** Something is left of a text that starts with a letter or digit. */
  lemma CoreKept(s: string)
    requires s != "" && IsAlnum(s[0])
    ensures Core(s) != ""
  {
    hide DashRuns, Trim;
    TrimKeepsFirst(s);
    var upper := Upper(Trim(s));
    assert upper[0] == s[0];
    DashRunsFirst(upper, IsSpace);
    var spaced := DashRuns(upper, IsSpace, false);
    DashRunsFirst(spaced, Foreign);
    DashRunsFirst(DashRuns(spaced, Foreign, false), IsDash);
  }

  /** Every exported bundle is tidy: its unit codes and tags clean to clean codes. */
  lemma ExportIsTidy(fold: string -> string, contacts: seq<Contact>, partnerRows: seq<PartnerRow>,
                     starlinks: seq<Starlink>)
    ensures Tidy(Exported(fold, contacts, partnerRows, starlinks))
  {
    var g := Gather(fold, contacts, partnerRows, starlinks);
    GatherFits(fold, contacts, partnerRows, starlinks);
    assert Exported(fold, contacts, partnerRows, starlinks) == ToBundle(g);
    FitsValid(g);
    hide Exported, Gather, Fits, ToBundle, Valid, IsClean, Core;
    BundleUnits(g);
    BundleEquipments(g);
    var b := ToBundle(g);
    forall i | 0 <= i < |b.units| ensures IsClean(BaseOf(b.units[i])) {
      CleanedAgain(b.units[i].code, "LEGACY-UNIT-" + b.units[i].key);
    }
    forall i | 0 <= i < |b.equipments| ensures IsClean(TagOf(b.equipments[i])) {
      var tag := b.equipments[i].tag;
      assert EquipmentFits(tag, b.equipments[i], g.units.at);
      CoreKept(tag);
      CoreIsClean(tag);
    }
  }

  /**
   Whatever the legacy tables hold, their bundle imports into any database without the fallback partner
   and without leaving an equipment out, and importing it again changes nothing.
   */
  lemma ExportThenImportTwice(live: Mode, db: Db, fold: string -> string, contacts: seq<Contact>,
                              partnerRows: seq<PartnerRow>, starlinks: seq<Starlink>)
    requires live.Real?
    ensures var b := Exported(fold, contacts, partnerRows, starlinks);
            var first := ImportBundle(live, db, b);
            var second := ImportBundle(live, first.db, b);
            && first.ok && !first.fallbackUsed && first.stats.equipmentsWithoutUnit == 0
            && second.ok && second.db == first.db && NothingCreated(second.stats)
  {
    hide ImportBundle, Closed, Tidy, Exported;
    ExportIsClosed(fold, contacts, partnerRows, starlinks);
    ExportIsTidy(fold, contacts, partnerRows, starlinks);
    ImportTwice(live, db, Exported(fold, contacts, partnerRows, starlinks));
  }

  // ---------- unit keys and codes ----------

  lemma {:induction false} TwiceCounts<T>(s: seq<T>, i: nat, j: nat)
    requires i < j < |s| && s[i] == s[j]
    ensures multiset(s)[s[i]] >= 2
  {
    assert s == s[..j] + s[j..] && s[j..] == [s[j]] + s[j + 1..];
    assert multiset(s) == multiset(s[..j]) + (multiset{s[j]} + multiset(s[j + 1..]));
    assert s[..j][i] == s[i] && s[i] in multiset(s[..j]);
  }

  lemma {:induction false} OnceCounts<T>(s: seq<T>)
    requires forall i, j :: 0 <= i < j < |s| ==> s[i] != s[j]
    ensures forall x :: multiset(s)[x] <= 1
  {
    if s != [] {
      var last := |s| - 1;
      OnceCounts(s[..last]);
      assert s == s[..last] + [s[last]];
      assert s[last] !in s[..last];
    }
  }

  /** Every exported unit has its own key. */
  lemma BundleKeysDistinct(g: Gathered)
    requires Fits(g) && Valid(g.partners) && Valid(g.units) && Valid(g.equipments)
    ensures DistinctUnitKeys(ToBundle(g).units)
  {
    hide PartnersFit, EquipmentsFit, KeysFit, IsClean, SortByText, UnitFits;
    var values := Values(g.units);
    var sorted := SortByText(values, UnitText);
    SortKeepsBag(values, UnitText);
    forall i | 0 <= i < |values| ensures values[i].row.key == g.units.keys[i] {
      FitUnit(g.units.keys[i], values[i], g.partners.at);
    }
    OnceCounts(values);
    var b := ToBundle(g);
    forall i, j | 0 <= i < j < |b.units| ensures b.units[i].key != b.units[j].key {
      SortedFits(g, i);
      SortedFits(g, j);
      if b.units[i].key == b.units[j].key {
        TwiceCounts(sorted, i, j);
        assert false;
      }
    }
  }

  lemma SortedFits(g: Gathered, i: nat)
    requires Fits(g) && Valid(g.partners) && Valid(g.units) && Valid(g.equipments)
        && i < |SortByText(Values(g.units), UnitText)|
    ensures var u := SortByText(Values(g.units), UnitText)[i];
            u.row.key in g.units.at && g.units.at[u.row.key] == u
  {
    hide PartnersFit, EquipmentsFit, KeysFit, IsClean, SortByText, UnitFits, Values;
    SortedMembers(g.units, UnitText);
    var u := SortByText(Values(g.units), UnitText)[i];
    var k :| k in g.units.at && g.units.at[k] == u;
    FitUnit(k, u, g.partners.at);
  }

  /** The importer gives every exported unit a code of its own, and cleaning that code again changes nothing. */
  lemma ExportedUnitsGetDistinctCodes(fold: string -> string, contacts: seq<Contact>, partnerRows: seq<PartnerRow>,
                                      starlinks: seq<Starlink>, i: nat, j: nat)
    requires var units := Exported(fold, contacts, partnerRows, starlinks).units; i < |units| && j < |units|
    ensures var units := Exported(fold, contacts, partnerRows, starlinks).units;
            var codes := UnitCodes(units);
            && units[i].key in codes && units[j].key in codes
            && (codes[units[i].key] == codes[units[j].key] ==> i == j)
            && units[i].code <= codes[units[i].key] && IsClean(codes[units[i].key])
  {
    var g := Gather(fold, contacts, partnerRows, starlinks);
    GatherFits(fold, contacts, partnerRows, starlinks);
    FitsValid(g);
    BundleKeysDistinct(g);
    BundleUnits(g);
    ExportIsTidy(fold, contacts, partnerRows, starlinks);
    assert Exported(fold, contacts, partnerRows, starlinks) == ToBundle(g);
    hide Exported, Gather, Fits, Valid, ToBundle, IsClean, UnitCodes, DistinctUnitKeys, BaseOf, TagOf;
    var units := ToBundle(g).units;
    UnitCodesDistinct(units, i, j);
    UnitCodesClean(units, units[i].key);
    CleanBase(units[i]);
  }

  lemma CleanBase(u: LegacyUnit)
    requires IsClean(u.code)
    ensures BaseOf(u) == u.code
  {
    hide IsClean, Core;
    CleanedAgain(u.code, "LEGACY-UNIT-" + u.key);
  }

  // ---------- nothing is lost in the counts ----------

  function PrimaryOf(p: PartnerEntry): nat { p.primaryUnits }

  function BackupOf(p: PartnerEntry): nat { p.backupUnits }

  function LinksOf(u: UnitEntry): nat { u.links }

  function BackupLinksOf(u: UnitEntry): nat { u.backupLinks }

  function WithBackup(rows: seq<Contact>): nat {
    if rows == [] then 0 else (if rows[0].backupPartner != "" then 1 else 0) + WithBackup(rows[1..])
  }

  lemma AddPartnerSums(fold: string -> string, partners: Dict<PartnerEntry>, name: string)
    requires Valid(partners)
    ensures var t := AddPartner(fold, partners, name);
            Valid(t) && Sum(t, PrimaryOf) == Sum(partners, PrimaryOf) && Sum(t, BackupOf) == Sum(partners, BackupOf)
  {
    hide PartnerSlug, Sum, Valid, Put;
    var code := PartnerSlug(fold, name);
    var entry := PartnerEntry(code, Or(name, code), [], [], 0, 0);
    PutValid(partners, code, entry);
    SumPut(partners, code, entry, PrimaryOf);
    SumPut(partners, code, entry, BackupOf);
  }

  lemma EditPartnerSums(partners: Dict<PartnerEntry>, code: string, p: PartnerEntry)
    requires Valid(partners) && code in partners.at
    ensures var t := Put(partners, code, p);
            && Valid(t)
            && Sum(t, PrimaryOf) + partners.at[code].primaryUnits == Sum(partners, PrimaryOf) + p.primaryUnits
            && Sum(t, BackupOf) + partners.at[code].backupUnits == Sum(partners, BackupOf) + p.backupUnits
  {
    hide Sum, Valid, Put;
    PutValid(partners, code, p);
    SumPut(partners, code, p, PrimaryOf);
    SumPut(partners, code, p, BackupOf);
  }

  lemma PartnersAfterSums(fold: string -> string, partners: Dict<PartnerEntry>, row: Contact)
    requires Valid(partners)
    ensures var t := PartnersAfter(fold, partners, row);
            && Valid(t) && Sum(t, PrimaryOf) == Sum(partners, PrimaryOf) + 1
            && Sum(t, BackupOf) == Sum(partners, BackupOf) + WithBackup([row])
  {
    hide Valid, PartnerSlug, AddPartner, Or, Put, Sum;
    assert [row][1..] == [];
    var name := Or(row.partner, "Sem parceiro");
    AddPartnerSums(fold, partners, name);
    var added := AddPartner(fold, partners, name);
    var main := added.at[PartnerSlug(fold, name)];
    var edited := main.(primaryUnits := main.primaryUnits + 1, contactIds := main.contactIds + [row.id]);
    EditPartnerSums(added, PartnerSlug(fold, name), edited);
    if row.backupPartner != "" {
      var counted := Put(added, PartnerSlug(fold, name), edited);
      AddPartnerSums(fold, counted, row.backupPartner);
      var withBackup := AddPartner(fold, counted, row.backupPartner);
      var backup := withBackup.at[PartnerSlug(fold, row.backupPartner)];
      EditPartnerSums(withBackup, PartnerSlug(fold, row.backupPartner), backup.(backupUnits := backup.backupUnits + 1));
    }
  }

  lemma UnitAfterSums(fold: string -> string, units: Dict<UnitEntry>, row: Contact)
    requires Valid(units)
    ensures var t := Put(units, UnitKey(fold, row), UnitAfter(fold, units, row));
            && Valid(t) && Sum(t, LinksOf) == Sum(units, LinksOf) + 1
            && Sum(t, BackupLinksOf) == Sum(units, BackupLinksOf) + WithBackup([row])
  {
    hide Valid, UnitKey, UnitSlug, PartnerSlug, Put, Sum, AddText;
    assert [row][1..] == [];
    var unit := UnitAfter(fold, units, row);
    PutValid(units, UnitKey(fold, row), unit);
    SumPut(units, UnitKey(fold, row), unit, LinksOf);
    SumPut(units, UnitKey(fold, row), unit, BackupLinksOf);
  }

  /** The four counters of what was gathered. */
  ghost predicate Counts(g: Gathered, main: nat, backup: nat) {
    && Valid(g.partners) && Valid(g.units)
    && Sum(g.partners, PrimaryOf) == main && Sum(g.units, LinksOf) == main
    && Sum(g.partners, BackupOf) == backup && Sum(g.units, BackupLinksOf) == backup
  }

  lemma {:induction false} ContactsCounted(fold: string -> string, g: Gathered, rows: seq<Contact>, main: nat,
                                           backup: nat)
    requires Counts(g, main, backup)
    ensures Counts(AfterContacts(fold, g, rows), main + |rows|, backup + WithBackup(rows))
    decreases |rows|
  {
    hide PartnersAfter, UnitAfter, UnitKey, WithOnu, Norm, Sum, Valid, Put;
    if rows != [] {
      PartnersAfterSums(fold, g.partners, rows[0]);
      UnitAfterSums(fold, g.units, rows[0]);
      assert [rows[0]][1..] == [];
      ContactsCounted(fold, ContactStep(fold, g, rows[0]), rows[1..], main + 1, backup + WithBackup([rows[0]]));
    }
  }

  lemma {:induction false} PartnerRowsKeepCounts(fold: string -> string, g: Gathered, rows: seq<PartnerRow>,
                                                 main: nat, backup: nat)
    requires Counts(g, main, backup)
    ensures Counts(AfterPartnerRows(fold, g, rows), main, backup)
    decreases |rows|
  {
    hide AddPartner, PartnerSlug, Or, Sum, Valid, Put;
    if rows != [] {
      var name := Or(rows[0].partner, "Sem parceiro");
      AddPartnerSums(fold, g.partners, name);
      var added := AddPartner(fold, g.partners, name);
      var entry := added.at[PartnerSlug(fold, name)];
      EditPartnerSums(added, PartnerSlug(fold, name), entry.(contacts := entry.contacts + [rows[0].id]));
      PartnerRowsKeepCounts(fold, PartnerRowStep(fold, g, rows[0]), rows[1..], main, backup);
    }
  }

  lemma {:induction false} StarlinksKeepCounts(fold: string -> string, g: Gathered, rows: seq<Starlink>, main: nat,
                                               backup: nat)
    requires Counts(g, main, backup)
    ensures Counts(AfterStarlinks(fold, g, rows), main, backup)
    decreases |rows|
  {
    hide StarlinkUnit, StarlinkTag, Or, Sum, Valid, Put;
    if rows != [] {
      StarlinksKeepCounts(fold, StarlinkStep(fold, g, rows[0]), rows[1..], main, backup);
    }
  }

  lemma NothingCounted()
    ensures Counts(EMPTY_GATHERED, 0, 0)
  {
  }

  /** Every contact is counted once, at one unit and one partner, and every backup partner once more. */
  lemma EveryContactCounted(fold: string -> string, contacts: seq<Contact>, partnerRows: seq<PartnerRow>,
                            starlinks: seq<Starlink>)
    ensures Counts(Gather(fold, contacts, partnerRows, starlinks), |contacts|, WithBackup(contacts))
  {
    hide AfterContacts, AfterPartnerRows, AfterStarlinks, Counts;
    NothingCounted();
    var withContacts := AfterContacts(fold, EMPTY_GATHERED, contacts);
    ContactsCounted(fold, EMPTY_GATHERED, contacts, 0, 0);
    PartnerRowsKeepCounts(fold, withContacts, partnerRows, |contacts|, WithBackup(contacts));
    StarlinksKeepCounts(fold, AfterPartnerRows(fold, withContacts, partnerRows), starlinks, |contacts|,
                        WithBackup(contacts));
  }

  // ---------- the exporter's loops ----------

  method EnterPartner(fold: string -> string, partners: Dict<PartnerEntry>, name: string)
    returns (after: Dict<PartnerEntry>, code: string)
    ensures after == AddPartner(fold, partners, name) && code == PartnerSlug(fold, name)
  {
    hide Slug;
    code := PartnerSlug(fold, name);
    after := partners;
    if code !in after.at {
      after := Put(after, code, PartnerEntry(code, Or(name, code), [], [], 0, 0));
    }
  }

  /** One turn of the contact loop. */
  method EnterContact(fold: string -> string, g: Gathered, row: Contact) returns (after: Gathered)
    ensures after == ContactStep(fold, g, row)
  {
    hide UnitSlug, UnitKey, PartnerSlug, AddPartner, Norm, Put, OnuTag, AddText, Or;
    var partners, partnerCode := EnterPartner(fold, g.partners, Or(row.partner, "Sem parceiro"));
    var unitCode, unitKey := UnitSlug(fold, row), UnitKey(fold, row);
    var unit := UnitEntry(LegacyUnit(unitKey, unitCode, row.unitName, row.group, row.city, row.state, partnerCode),
                          [], 0, 0, [], [], []);
    if unitKey in g.units.at {
      unit := g.units.at[unitKey];
    }
    unit := unit.(contactIds := unit.contactIds + [row.id], links := unit.links + 1);
    var main := partners.at[partnerCode];
    partners := Put(partners, partnerCode,
                    main.(primaryUnits := main.primaryUnits + 1, contactIds := main.contactIds + [row.id]));
    unit := unit.(phones := AddText(unit.phones, row.phone), contracts := AddText(unit.contracts, row.contract),
                  notes := AddText(unit.notes, row.notes));
    var equipments := g.equipments;
    if row.macOnu != "" {
      var tag := OnuTag(unitCode, unit.links);
      equipments := Put(equipments, tag,
                        LegacyEquipment(tag, "ONU " + row.unitName, "onu", row.macOnu, "active", unitKey, unitCode,
                                        "contatos.mac_onu", row.id));
    }
    if row.backupPartner != "" {
      var backupCode;
      partners, backupCode := EnterPartner(fold, partners, row.backupPartner);
      unit := unit.(backupLinks := unit.backupLinks + 1);
      var backup := partners.at[backupCode];
      partners := Put(partners, backupCode, backup.(backupUnits := backup.backupUnits + 1));
    }
    after := Gathered(partners, Put(g.units, unitKey, unit), equipments,
                      g.unitByContactId[row.id := unitKey], g.unitByNormName[Norm(fold, row.unitName) := unitKey]);
  }

  /** `build_bundle`: its three loops and the sorting at the end. */
  method BuildBundle(fold: string -> string, contacts: seq<Contact>, partnerRows: seq<PartnerRow>,
                     starlinks: seq<Starlink>)
    returns (b: Bundle)
    ensures b == Exported(fold, contacts, partnerRows, starlinks)
  {
    hide ToBundle, ContactStep, PartnerRowStep, StarlinkStep, Fits;
    GatherFits(fold, contacts, partnerRows, starlinks);
    var g := EMPTY_GATHERED;
    var i := 0;
    assert contacts[0..] == contacts && partnerRows[0..] == partnerRows && starlinks[0..] == starlinks;
    while i < |contacts|
      invariant 0 <= i <= |contacts|
      invariant AfterContacts(fold, g, contacts[i..]) == AfterContacts(fold, EMPTY_GATHERED, contacts)
    {
      assert contacts[i..][1..] == contacts[i + 1..];
      g := EnterContact(fold, g, contacts[i]);
      i := i + 1;
    }
    ghost var withContacts := g;
    i := 0;
    while i < |partnerRows|
      invariant 0 <= i <= |partnerRows|
      invariant AfterPartnerRows(fold, g, partnerRows[i..]) == AfterPartnerRows(fold, withContacts, partnerRows)
    {
      assert partnerRows[i..][1..] == partnerRows[i + 1..];
      g := EnterPartnerRow(fold, g, partnerRows[i]);
      i := i + 1;
    }
    ghost var withPartners := g;
    i := 0;
    while i < |starlinks|
      invariant 0 <= i <= |starlinks|
      invariant AfterStarlinks(fold, g, starlinks[i..]) == AfterStarlinks(fold, withPartners, starlinks)
    {
      assert starlinks[i..][1..] == starlinks[i + 1..];
      g := EnterStarlink(fold, g, starlinks[i]);
      i := i + 1;
    }
    FitsValid(g);
    b := ToBundle(g);
  }

  method EnterPartnerRow(fold: string -> string, g: Gathered, row: PartnerRow) returns (after: Gathered)
    ensures after == PartnerRowStep(fold, g, row)
  {
    hide PartnerSlug, AddPartner, Put, Or;
    var partners, code := EnterPartner(fold, g.partners, Or(row.partner, "Sem parceiro"));
    var entry := partners.at[code];
    after := g.(partners := Put(partners, code, entry.(contacts := entry.contacts + [row.id])));
  }

  method EnterStarlink(fold: string -> string, g: Gathered, row: Starlink) returns (after: Gathered)
    ensures after == StarlinkStep(fold, g, row)
  {
    hide StarlinkTag, Norm, Put, Or;
    var key := if row.localId in g.unitByContactId then g.unitByContactId[row.localId] else "";
    if key == "" && Norm(fold, row.localName) in g.unitByNormName {
      key := g.unitByNormName[Norm(fold, row.localName)];
    }
    var tag, serial := StarlinkTag(fold, row), Or(row.kitSerial, row.antennaSerial);
    after := g;
    if serial != "" {
      var e := LegacyEquipment(tag, "Starlink " + Or(row.localName, Or(row.antennaId, row.id)), "starlink", serial,
                               if key != "" then "active" else "stock", key,
                               if key in g.units.at then g.units.at[key].row.code else "", "starlinks", row.id);
      after := g.(equipments := Put(g.equipments, tag, e));
    }
  }
}
