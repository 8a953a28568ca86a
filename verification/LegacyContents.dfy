/**
 What a bundle of apps/api/scripts/export-legacy-sqlite.py holds, said of the three input tables alone: which
 row each partner, unit and equipment comes from, and which unit a Starlink stands at.
 */
module LegacyContents {
  import opened LegacyBundle
  import opened LegacyCodes
  import opened LegacyExport
  import opened LegacyImport
  import opened LegacyTags
  import opened LegacyReport
  import opened Text
  import opened Uniqueness

  // ---------- first and last rows ----------

  ghost predicate FirstOfUnit(fold: string -> string, rows: seq<Contact>, key: string, c: nat) {
    c < |rows| && UnitKey(fold, rows[c]) == key && forall j :: 0 <= j < c ==> UnitKey(fold, rows[j]) != key
  }

  ghost predicate LastWithId(rows: seq<Contact>, id: string, c: nat) {
    c < |rows| && rows[c].id == id && forall j :: c < j < |rows| ==> rows[j].id != id
  }

  ghost predicate LastNamed(fold: string -> string, rows: seq<Contact>, name: string, c: nat) {
    && c < |rows| && Norm(fold, rows[c].unitName) == name
    && forall j :: c < j < |rows| ==> Norm(fold, rows[j].unitName) != name
  }

  ghost predicate NoneWithId(rows: seq<Contact>, id: string) {
    forall j :: 0 <= j < |rows| ==> rows[j].id != id
  }

  ghost predicate NoneNamed(fold: string -> string, rows: seq<Contact>, name: string) {
    forall j :: 0 <= j < |rows| ==> Norm(fold, rows[j].unitName) != name
  }

  ghost predicate NoneOfUnit(fold: string -> string, rows: seq<Contact>, key: string) {
    forall j :: 0 <= j < |rows| ==> UnitKey(fold, rows[j]) != key
  }

  /** The name that stands for a partner nobody named. */
  function PartnerName(name: string): string {
    if name == "" then "Sem parceiro" else name
  }

  /** The unit a contact describes. */
  ghost predicate Describes(fold: string -> string, row: Contact, u: LegacyUnit) {
    && u.key == UnitKey(fold, row) && u.code == UnitSlug(fold, row) && u.name == row.unitName && u.group == row.group
    && u.city == row.city && u.state == row.state && u.partnerCode == PartnerSlug(fold, PartnerName(row.partner))
  }

  // ---------- what the contact loop knows ----------

  /** Every unit is described by its first contact. */
  ghost predicate UnitsKnown(fold: string -> string, rows: seq<Contact>, units: map<string, UnitEntry>) {
    && (forall key :: key in units ==> !NoneOfUnit(fold, rows, key))
    && (forall key, c: nat :: FirstOfUnit(fold, rows, key, c) ==>
          key in units && Describes(fold, rows[c], units[key].row))
  }

  /** Ids lead to the unit of their last contact. */
  ghost predicate IdsKnown(fold: string -> string, rows: seq<Contact>, ids: map<string, string>) {
    && (forall id :: id in ids ==> !NoneWithId(rows, id))
    && (forall id, c: nat :: LastWithId(rows, id, c) ==> id in ids && ids[id] == UnitKey(fold, rows[c]))
  }

  /** Normalised unit names lead to the unit of their last contact. */
  ghost predicate NamesKnown(fold: string -> string, rows: seq<Contact>, names: map<string, string>) {
    && (forall name :: name in names ==> !NoneNamed(fold, rows, name))
    && (forall name, c: nat :: LastNamed(fold, rows, name, c) ==>
          name in names && names[name] == UnitKey(fold, rows[c]))
  }

  lemma IdsNext(fold: string -> string, rows: seq<Contact>, ids: map<string, string>, row: Contact)
    requires IdsKnown(fold, rows, ids)
    ensures IdsKnown(fold, rows + [row], ids[row.id := UnitKey(fold, row)])
  {
    hide UnitKey;
    var all, after := rows + [row], ids[row.id := UnitKey(fold, row)];
    forall id | id in after ensures !NoneWithId(all, id) {
      if id == row.id {
        assert all[|rows|].id == id;
      } else {
        var j :| 0 <= j < |rows| && rows[j].id == id;
        assert all[j].id == id;
      }
    }
    forall id, c: nat | LastWithId(all, id, c) ensures id in after && after[id] == UnitKey(fold, all[c]) {
      if c < |rows| {
        assert all[|rows|].id != id;
        assert forall j :: c < j < |rows| ==> all[j] == rows[j];
        assert LastWithId(rows, id, c);
      }
    }
  }

  lemma NamesNext(fold: string -> string, rows: seq<Contact>, names: map<string, string>, row: Contact)
    requires NamesKnown(fold, rows, names)
    ensures NamesKnown(fold, rows + [row], names[Norm(fold, row.unitName) := UnitKey(fold, row)])
  {
    hide UnitKey, Norm;
    var own := Norm(fold, row.unitName);
    var all, after := rows + [row], names[own := UnitKey(fold, row)];
    forall name | name in after ensures !NoneNamed(fold, all, name) {
      if name == own {
        assert Norm(fold, all[|rows|].unitName) == name;
      } else {
        var j :| 0 <= j < |rows| && Norm(fold, rows[j].unitName) == name;
        assert Norm(fold, all[j].unitName) == name;
      }
    }
    forall name, c: nat | LastNamed(fold, all, name, c) ensures name in after && after[name] == UnitKey(fold, all[c]) {
      if c < |rows| {
        assert Norm(fold, all[|rows|].unitName) != name;
        assert forall j :: c < j < |rows| ==> all[j] == rows[j];
        assert LastNamed(fold, rows, name, c);
      }
    }
  }

  lemma UnitsNext(fold: string -> string, rows: seq<Contact>, units: Dict<UnitEntry>, row: Contact)
    requires UnitsKnown(fold, rows, units.at)
    ensures UnitsKnown(fold, rows + [row], Put(units, UnitKey(fold, row), UnitAfter(fold, units, row)).at)
  {
    var own := UnitKey(fold, row);
    var all, after := rows + [row], Put(units, own, UnitAfter(fold, units, row)).at;
    UnitRowAfter(fold, units, row);
    hide UnitKey, UnitAfter, Describes;
    forall key | key in after ensures !NoneOfUnit(fold, all, key) {
      if key == own {
        assert UnitKey(fold, all[|rows|]) == key;
      } else {
        var j :| 0 <= j < |rows| && UnitKey(fold, rows[j]) == key;
        assert UnitKey(fold, all[j]) == key;
      }
    }
    forall key, c: nat | FirstOfUnit(fold, all, key, c)
      ensures key in after && Describes(fold, all[c], after[key].row)
    {
      assert forall j :: 0 <= j < |rows| ==> all[j] == rows[j];
      if c < |rows| {
        assert FirstOfUnit(fold, rows, key, c);
      } else {
        assert NoneOfUnit(fold, rows, key);
      }
    }
  }

  /** A contact keeps the description of a unit that is there, and describes one that is not. */
  lemma UnitRowAfter(fold: string -> string, units: Dict<UnitEntry>, row: Contact)
    ensures var key, after := UnitKey(fold, row), UnitAfter(fold, units, row);
            && (key in units.at ==> after.row == units.at[key].row)
            && (key !in units.at ==> Describes(fold, row, after.row))
  {
    hide UnitKey, UnitSlug, PartnerSlug, AddText;
  }

  lemma {:induction false} ContactsKnown(fold: string -> string, rows: seq<Contact>)
    ensures var g := AfterContacts(fold, EMPTY_GATHERED, rows);
            UnitsKnown(fold, rows, g.units.at) && IdsKnown(fold, rows, g.unitByContactId)
            && NamesKnown(fold, rows, g.unitByNormName)
  {
    hide UnitsKnown, IdsKnown, NamesKnown, UnitKey, UnitAfter, Norm, PartnersAfter, WithOnu, Put;
    if rows == [] {
      NothingKnown(fold);
    } else {
      var init, row := rows[..|rows| - 1], rows[|rows| - 1];
      assert rows == init + [row];
      ContactsSnoc(fold, EMPTY_GATHERED, rows);
      ContactsKnown(fold, init);
      hide AfterContacts;
      var g := AfterContacts(fold, EMPTY_GATHERED, init);
      UnitsNext(fold, init, g.units, row);
      IdsNext(fold, init, g.unitByContactId, row);
      NamesNext(fold, init, g.unitByNormName, row);
    }
  }

  lemma NothingKnown(fold: string -> string)
    ensures UnitsKnown(fold, [], EMPTY_GATHERED.units.at) && IdsKnown(fold, [], EMPTY_GATHERED.unitByContactId)
    ensures NamesKnown(fold, [], EMPTY_GATHERED.unitByNormName)
  {
  }

  // ---------- where Starlinks stand ----------

  /** The equipment is at the unit of the key, under the code the unit's first contact gives it. */
  ghost predicate AtUnit(fold: string -> string, contacts: seq<Contact>, key: string, e: LegacyEquipment) {
    && e.unitKey == key && !NoneOfUnit(fold, contacts, key)
    && forall c: nat :: FirstOfUnit(fold, contacts, key, c) ==> e.unitCode == UnitSlug(fold, contacts[c])
  }

  /**
   At the unit of the last contact with the place's id; without one at the unit of the last contact with the
   place's name; without that at no unit.  It is in use exactly when it is at a unit.
   */
  ghost predicate PlacedAs(fold: string -> string, contacts: seq<Contact>, row: Starlink, e: LegacyEquipment) {
    && (forall c: nat :: LastWithId(contacts, row.localId, c) ==> AtUnit(fold, contacts, UnitKey(fold, contacts[c]), e))
    && (NoneWithId(contacts, row.localId) ==>
          forall c: nat :: LastNamed(fold, contacts, Norm(fold, row.localName), c) ==>
            AtUnit(fold, contacts, UnitKey(fold, contacts[c]), e))
    && (NoneWithId(contacts, row.localId) && NoneNamed(fold, contacts, Norm(fold, row.localName)) ==>
          e.unitKey == "" && e.unitCode == "")
    && e.status in {"active", "stock"} && (e.status == "active" <==> e.unitKey != "")
  }

  /** Neither search is about nothing: some contact is the last with the id, or the last of the name. */
  lemma SomeContactIsLast(fold: string -> string, contacts: seq<Contact>, id: string, name: string)
    ensures NoneWithId(contacts, id) || exists c: nat :: LastWithId(contacts, id, c)
    ensures NoneNamed(fold, contacts, name) || exists c: nat :: LastNamed(fold, contacts, name, c)
  {
    if !NoneWithId(contacts, id) {
      var c := FindLastId(contacts, id, |contacts|);
    }
    if !NoneNamed(fold, contacts, name) {
      var c := FindLastName(fold, contacts, name, |contacts|);
    }
  }

  lemma {:induction false} FindLastId(rows: seq<Contact>, id: string, n: nat) returns (c: nat)
    requires n <= |rows| && !NoneWithId(rows, id) && forall j :: n <= j < |rows| ==> rows[j].id != id
    ensures LastWithId(rows, id, c)
    decreases n
  {
    if rows[n - 1].id == id {
      c := n - 1;
    } else {
      c := FindLastId(rows, id, n - 1);
    }
  }

  lemma {:induction false} FindLastName(fold: string -> string, rows: seq<Contact>, name: string, n: nat)
    returns (c: nat)
    requires n <= |rows| && !NoneNamed(fold, rows, name)
    requires forall j :: n <= j < |rows| ==> Norm(fold, rows[j].unitName) != name
    ensures LastNamed(fold, rows, name, c)
    decreases n
  {
    hide Norm;
    if Norm(fold, rows[n - 1].unitName) == name {
      c := n - 1;
    } else {
      c := FindLastName(fold, rows, name, n - 1);
    }
  }

  lemma {:induction false} FindFirstOfUnit(fold: string -> string, rows: seq<Contact>, key: string, n: nat)
    returns (c: nat)
    requires n <= |rows| && !NoneOfUnit(fold, rows, key) && forall j :: 0 <= j < n ==> UnitKey(fold, rows[j]) != key
    ensures FirstOfUnit(fold, rows, key, c)
    decreases |rows| - n
  {
    hide UnitKey;
    assert n < |rows|;
    if UnitKey(fold, rows[n]) == key {
      c := n;
    } else {
      c := FindFirstOfUnit(fold, rows, key, n + 1);
    }
  }

  lemma KeysAreLong(fold: string -> string, row: Contact)
    ensures UnitKey(fold, row) != ""
  {
    hide Norm;
  }

  /** What the last contacts lead to is where the exporter puts the Starlink. */
  lemma StarlinkPlaced(fold: string -> string, contacts: seq<Contact>, g: Gathered, row: Starlink)
    requires UnitsKnown(fold, contacts, g.units.at) && IdsKnown(fold, contacts, g.unitByContactId)
    requires NamesKnown(fold, contacts, g.unitByNormName)
    ensures PlacedAs(fold, contacts, row, StarlinkOf(fold, g, row))
  {
    hide UnitKey, Norm, Slug, AtUnit, StarlinkOf, StarlinkUnit;
    var e := StarlinkOf(fold, g, row);
    StarlinkFields(fold, g, row);
    forall c: nat | LastWithId(contacts, row.localId, c) ensures AtUnit(fold, contacts, UnitKey(fold, contacts[c]), e) {
      KeysAreLong(fold, contacts[c]);
      UnitById(fold, contacts, g, row, c);
      AtKnownUnit(fold, contacts, g, row, c);
    }
    forall c: nat | NoneWithId(contacts, row.localId) && LastNamed(fold, contacts, Norm(fold, row.localName), c)
      ensures AtUnit(fold, contacts, UnitKey(fold, contacts[c]), e)
    {
      UnitByName(fold, contacts, g, row, c);
      AtKnownUnit(fold, contacts, g, row, c);
    }
    if NoneWithId(contacts, row.localId) && NoneNamed(fold, contacts, Norm(fold, row.localName)) {
      UnitOfNobody(fold, contacts, g, row);
    }
  }

  lemma StarlinkFields(fold: string -> string, g: Gathered, row: Starlink)
    ensures var e, key := StarlinkOf(fold, g, row), StarlinkUnit(fold, g, row);
            && e.unitKey == key && e.unitCode == (if key in g.units.at then g.units.at[key].row.code else "")
            && e.status == if key != "" then "active" else "stock"
  {
    hide StarlinkUnit, Slug, Or;
  }

  lemma UnitById(fold: string -> string, contacts: seq<Contact>, g: Gathered, row: Starlink, c: nat)
    requires IdsKnown(fold, contacts, g.unitByContactId) && LastWithId(contacts, row.localId, c)
    requires UnitKey(fold, contacts[c]) != ""
    ensures StarlinkUnit(fold, g, row) == UnitKey(fold, contacts[c])
  {
    hide UnitKey, Norm, LastWithId;
  }

  lemma UnitByName(fold: string -> string, contacts: seq<Contact>, g: Gathered, row: Starlink, c: nat)
    requires IdsKnown(fold, contacts, g.unitByContactId) && NamesKnown(fold, contacts, g.unitByNormName)
    requires NoneWithId(contacts, row.localId) && LastNamed(fold, contacts, Norm(fold, row.localName), c)
    ensures StarlinkUnit(fold, g, row) == UnitKey(fold, contacts[c])
  {
    hide UnitKey, Norm, LastNamed, NoneWithId;
  }

  lemma UnitOfNobody(fold: string -> string, contacts: seq<Contact>, g: Gathered, row: Starlink)
    requires UnitsKnown(fold, contacts, g.units.at) && IdsKnown(fold, contacts, g.unitByContactId)
    requires NamesKnown(fold, contacts, g.unitByNormName)
    requires NoneWithId(contacts, row.localId) && NoneNamed(fold, contacts, Norm(fold, row.localName))
    ensures StarlinkUnit(fold, g, row) == "" && "" !in g.units.at
  {
    hide UnitKey, Norm, NoneWithId, NoneNamed;
    if "" in g.units.at {
      var j :| 0 <= j < |contacts| && UnitKey(fold, contacts[j]) == "";
      KeysAreLong(fold, contacts[j]);
      assert false;
    }
  }

  lemma AtKnownUnit(fold: string -> string, contacts: seq<Contact>, g: Gathered, row: Starlink, c: nat)
    requires UnitsKnown(fold, contacts, g.units.at) && c < |contacts|
    requires StarlinkUnit(fold, g, row) == UnitKey(fold, contacts[c])
    ensures AtUnit(fold, contacts, UnitKey(fold, contacts[c]), StarlinkOf(fold, g, row))
  {
    hide UnitKey, UnitSlug, StarlinkOf, StarlinkUnit, FirstOfUnit, NoneOfUnit, UnitsKnown;
    StarlinkFields(fold, g, row);
    KnownUnit(fold, contacts, g, UnitKey(fold, contacts[c]), c);
  }

  lemma KnownUnit(fold: string -> string, contacts: seq<Contact>, g: Gathered, key: string, c: nat)
    requires UnitsKnown(fold, contacts, g.units.at) && c < |contacts| && UnitKey(fold, contacts[c]) == key
    ensures key in g.units.at && !NoneOfUnit(fold, contacts, key)
    ensures forall f: nat :: FirstOfUnit(fold, contacts, key, f) ==>
              g.units.at[key].row.code == UnitSlug(fold, contacts[f])
  {
    hide UnitKey, UnitSlug, PartnerSlug;
    var first := FindFirstOfUnit(fold, contacts, key, 0);
  }

  // ---------- the equipments ----------

  ghost predicate HasSerial(row: Starlink) {
    row.kitSerial != "" || row.antennaSerial != ""
  }

  /** No later Starlink with a serial number has the same tag. */
  ghost predicate LastStarlink(fold: string -> string, rows: seq<Starlink>, s: nat) {
    && s < |rows| && HasSerial(rows[s])
    && forall j :: s < j < |rows| && HasSerial(rows[j]) ==> StarlinkSlug(fold, rows[j]) != StarlinkSlug(fold, rows[s])
  }

  /** The equipment of a Starlink, apart from its place. */
  ghost predicate StarlinkMade(fold: string -> string, row: Starlink, e: LegacyEquipment) {
    && e.tag == "STARLINK-" + StarlinkSlug(fold, row) && e.kind == "starlink" && e.source == "starlinks"
    && e.legacyId == row.id && e.serialNumber == (if row.kitSerial != "" then row.kitSerial else row.antennaSerial)
    && (row.localName != "" ==> e.name == "Starlink " + row.localName)
    && (row.localName == "" && row.antennaId != "" ==> e.name == "Starlink " + row.antennaId)
    && (row.localName == "" && row.antennaId == "" ==> e.name == "Starlink " + row.id)
  }

  /** The number of contacts of the row's unit up to the row. */
  function LinkNumber(fold: string -> string, rows: seq<Contact>, c: nat): nat
    requires c < |rows|
  {
    LinkCount(fold, rows[..c + 1], UnitKey(fold, rows[c]))
  }

  /** The ONU of a contact, at the contact's unit; its tag is cut at 64 characters. */
  ghost predicate OnuMade(fold: string -> string, row: Contact, link: nat, e: LegacyEquipment) {
    var full := "ONU-" + UnitSlug(fold, row) + "-" + (if link < 10 then "0" else "") + Decimal(link);
    && e.tag == (if |full| <= 64 then full else full[..64])
    && e.name == "ONU " + row.unitName && e.kind == "onu" && e.serialNumber == row.macOnu && e.status == "active"
    && e.unitKey == UnitKey(fold, row) && e.unitCode == UnitSlug(fold, row)
    && e.source == "contatos.mac_onu" && e.legacyId == row.id
  }

  ghost predicate SameOnuTag(fold: string -> string, rows: seq<Contact>, a: nat, b: nat)
    requires a < |rows| && b < |rows|
  {
    OnuOf(fold, rows[a], LinkNumber(fold, rows, a)).tag == OnuOf(fold, rows[b], LinkNumber(fold, rows, b)).tag
  }

  /** No later contact with an ONU has the same tag. */
  ghost predicate LastOnu(fold: string -> string, rows: seq<Contact>, c: nat) {
    && c < |rows| && rows[c].macOnu != ""
    && forall j :: c < j < |rows| && rows[j].macOnu != "" ==> !SameOnuTag(fold, rows, c, j)
  }

  lemma OnuIsMade(fold: string -> string, row: Contact, link: nat)
    ensures OnuMade(fold, row, link, OnuOf(fold, row, link))
  {
    hide UnitSlug, UnitKey, Decimal;
    assert "ONU-" + UnitSlug(fold, row) + "-" + (if link < 10 then "0" else "") + Decimal(link)
        == "ONU-" + UnitSlug(fold, row) + "-" + TwoDigits(link);
  }

  lemma StarlinkIsMade(fold: string -> string, g: Gathered, row: Starlink)
    requires HasSerial(row)
    ensures StarlinkMade(fold, row, StarlinkOf(fold, g, row)) && SerialOf(row) != ""
  {
    hide Slug, StarlinkUnit;
  }

  lemma NoSerial(row: Starlink)
    ensures SerialOf(row) != "" <==> HasSerial(row)
  {
  }

  /** The last equipment under a tag is that of the last row of the tag. */
  lemma {:induction false} StarlinksLast(fold: string -> string, g: Gathered, rows: seq<Starlink>, e: LegacyEquipment)
    ensures LastMade(MadeByStarlinks(fold, g, rows), e)
        <==> exists s: nat :: s < |rows| && LastStarlink(fold, rows, s) && e == StarlinkOf(fold, g, rows[s])
  {
    hide StarlinkOf, StarlinkSlug, HasSerial, SerialOf;
    if rows != [] {
      var init, row := rows[..|rows| - 1], rows[|rows| - 1];
      StarlinksLast(fold, g, init, e);
      NoSerial(row);
      LastStarlinkNext(fold, init, row);
      StarlinkTags(fold, g);
      assert rows == init + [row];
      if SerialOf(row) != "" {
        LastMadeNext(MadeByStarlinks(fold, g, init), StarlinkOf(fold, g, row), e);
      } else {
        assert MadeByStarlinks(fold, g, init) + [] == MadeByStarlinks(fold, g, init);
      }
    }
  }

  lemma StarlinkTags(fold: string -> string, g: Gathered)
    ensures forall a, b :: StarlinkOf(fold, g, a).tag == StarlinkOf(fold, g, b).tag
                           <==> StarlinkSlug(fold, a) == StarlinkSlug(fold, b)
  {
    hide StarlinkSlug, StarlinkUnit, Or;
    forall a, b ensures StarlinkOf(fold, g, a).tag == StarlinkOf(fold, g, b).tag
                        <==> StarlinkSlug(fold, a) == StarlinkSlug(fold, b) {
      PrefixTells(StarlinkSlug(fold, a), StarlinkSlug(fold, b));
    }
  }

  /** One more row is the last of its tag, and takes that from the rows of the same tag. */
  lemma LastStarlinkNext(fold: string -> string, rows: seq<Starlink>, row: Starlink)
    ensures forall s: nat :: LastStarlink(fold, rows + [row], s)
                             <==> (s == |rows| && HasSerial(row))
                                  || (LastStarlink(fold, rows, s)
                                      && !(HasSerial(row) && StarlinkSlug(fold, row) == StarlinkSlug(fold, rows[s])))
  {
    hide StarlinkSlug, HasSerial;
    var all := rows + [row];
    forall s: nat ensures LastStarlink(fold, all, s)
                          <==> (s == |rows| && HasSerial(row))
                               || (LastStarlink(fold, rows, s)
                                   && !(HasSerial(row) && StarlinkSlug(fold, row) == StarlinkSlug(fold, rows[s]))) {
      assert all[|rows|] == row;
      assert forall j :: 0 <= j < |rows| ==> all[j] == rows[j];
    }
  }

  lemma LastMadeNext(made: seq<LegacyEquipment>, next: LegacyEquipment, e: LegacyEquipment)
    ensures LastMade(made + [next], e) <==> e == next || (LastMade(made, e) && e.tag != next.tag)
  {
    var all := made + [next];
    assert all[|made|] == next;
    if LastMade(made, e) && e.tag != next.tag {
      var i :| 0 <= i < |made| && Last(made, i) && made[i] == e;
      assert Last(all, i) && all[i] == e;
    }
    if e == next {
      assert Last(all, |made|);
    }
    if LastMade(all, e) && e != next {
      var i :| 0 <= i < |all| && Last(all, i) && all[i] == e;
      LastBefore(made, next, i);
    }
  }

  lemma SameLinkNumber(fold: string -> string, rows: seq<Contact>, row: Contact, c: nat)
    requires c < |rows|
    ensures LinkNumber(fold, rows + [row], c) == LinkNumber(fold, rows, c) && (rows + [row])[c] == rows[c]
  {
    hide UnitKey, LinkCount;
    assert (rows + [row])[..c + 1] == rows[..c + 1];
  }

  /** One more contact's ONU is the last of its tag, and takes that from the contacts of the same tag. */
  lemma LastOnuNext(fold: string -> string, rows: seq<Contact>, row: Contact, c: nat)
    ensures LastOnu(fold, rows + [row], c)
            <==> (c == |rows| && row.macOnu != "")
                 || (LastOnu(fold, rows, c) && !(row.macOnu != "" && SameOnuTag(fold, rows + [row], c, |rows|)))
  {
    hide SameOnuTag;
    var all := rows + [row];
    assert all[|rows|] == row;
    if c < |rows| {
      forall j: nat | c < j < |rows| ensures SameOnuTag(fold, all, c, j) <==> SameOnuTag(fold, rows, c, j) {
        SameTags(fold, rows, row, c, j);
      }
      assert forall j :: 0 <= j < |rows| ==> all[j] == rows[j];
    }
  }

  lemma SameTags(fold: string -> string, rows: seq<Contact>, row: Contact, a: nat, b: nat)
    requires a < |rows| && b < |rows|
    ensures SameOnuTag(fold, rows + [row], a, b) <==> SameOnuTag(fold, rows, a, b)
  {
    hide OnuOf, LinkNumber;
    SameLinkNumber(fold, rows, row, a);
    SameLinkNumber(fold, rows, row, b);
  }

  /** The ONU comes from a contact that is the last of its tag. */
  ghost predicate FromContact(fold: string -> string, rows: seq<Contact>, e: LegacyEquipment) {
    exists c: nat :: c < |rows| && LastOnu(fold, rows, c) && e == OnuOf(fold, rows[c], LinkNumber(fold, rows, c))
  }

  lemma {:induction false} OnusLast(fold: string -> string, rows: seq<Contact>, e: LegacyEquipment)
    ensures LastMade(MadeByContacts(fold, rows), e) <==> FromContact(fold, rows, e)
  {
    hide OnuOf, LinkCount, UnitKey, LastMade;
    if rows == [] {
      NobodyMade(fold, e);
    } else {
      var init, row := rows[..|rows| - 1], rows[|rows| - 1];
      assert rows == init + [row] && rows[..|rows|] == rows;
      OnusLast(fold, init, e);
      FromContactNext(fold, init, row, e);
      if row.macOnu != "" {
        LastMadeNext(MadeByContacts(fold, init), OnuOf(fold, row, LinkCount(fold, rows, UnitKey(fold, row))), e);
      } else {
        assert MadeByContacts(fold, init) + [] == MadeByContacts(fold, init);
      }
    }
  }

  lemma NobodyMade(fold: string -> string, e: LegacyEquipment)
    ensures !LastMade(MadeByContacts(fold, []), e) && !FromContact(fold, [], e)
  {
  }

  lemma FromContactNext(fold: string -> string, rows: seq<Contact>, row: Contact, e: LegacyEquipment)
    ensures var all := rows + [row];
            var next := OnuOf(fold, row, LinkCount(fold, all, UnitKey(fold, row)));
            FromContact(fold, all, e)
            <==> if row.macOnu == "" then FromContact(fold, rows, e)
                 else e == next || (FromContact(fold, rows, e) && e.tag != next.tag)
  {
    hide OnuOf, LinkCount, UnitKey, LastOnu, SameOnuTag;
    var all := rows + [row];
    var next := OnuOf(fold, row, LinkCount(fold, all, UnitKey(fold, row)));
    assert all[..|rows| + 1] == all && all[|rows|] == row;
    LastOnuNext(fold, rows, row, |rows|);
    LastOnuIn(fold, rows, |rows|);
    assert LinkNumber(fold, all, |rows|) == LinkCount(fold, all, UnitKey(fold, row));
    if FromContact(fold, rows, e) {
      var c: nat :| c < |rows| && LastOnu(fold, rows, c) && e == OnuOf(fold, rows[c], LinkNumber(fold, rows, c));
      LastOnuIn(fold, rows, c);
      LastOnuNext(fold, rows, row, c);
      SameLinkNumber(fold, rows, row, c);
      TagsMeet(fold, all, c, |rows|);
    }
    if FromContact(fold, all, e) {
      var c: nat :| c < |all| && LastOnu(fold, all, c) && e == OnuOf(fold, all[c], LinkNumber(fold, all, c));
      LastOnuIn(fold, all, c);
      LastOnuNext(fold, rows, row, c);
      if c < |rows| {
        SameLinkNumber(fold, rows, row, c);
        TagsMeet(fold, all, c, |rows|);
      }
    }
  }

  lemma LastOnuIn(fold: string -> string, rows: seq<Contact>, c: nat)
    ensures LastOnu(fold, rows, c) ==> c < |rows|
  {
  }

  lemma TagsMeet(fold: string -> string, rows: seq<Contact>, a: nat, b: nat)
    requires a < |rows| && b < |rows|
    ensures SameOnuTag(fold, rows, a, b)
        <==> OnuOf(fold, rows[a], LinkNumber(fold, rows, a)).tag == OnuOf(fold, rows[b], LinkNumber(fold, rows, b)).tag
  {
  }

  /** ONUs and Starlinks never meet under a tag. */
  lemma LastOfBoth(onus: seq<LegacyEquipment>, stars: seq<LegacyEquipment>, e: LegacyEquipment)
    requires forall i, j :: 0 <= i < |onus| && 0 <= j < |stars| ==> onus[i].tag != stars[j].tag
    ensures LastMade(onus + stars, e) <==> LastMade(onus, e) || LastMade(stars, e)
  {
    var all := onus + stars;
    if LastMade(onus, e) {
      var i :| 0 <= i < |onus| && Last(onus, i) && onus[i] == e;
      assert Last(all, i) && all[i] == e;
    }
    if LastMade(stars, e) {
      var i :| 0 <= i < |stars| && Last(stars, i) && stars[i] == e;
      assert all[|onus| + i] == e;
      assert Last(all, |onus| + i);
    }
    if LastMade(all, e) {
      var i :| 0 <= i < |all| && Last(all, i) && all[i] == e;
      if i < |onus| {
        assert forall j :: 0 <= j < |onus| ==> all[j] == onus[j];
        assert Last(onus, i);
      } else {
        assert forall j :: 0 <= j < |stars| ==> all[|onus| + j] == stars[j];
        assert Last(stars, i - |onus|);
      }
    }
  }

  lemma {:induction false} OnusLead(fold: string -> string, rows: seq<Contact>)
    ensures forall i :: 0 <= i < |MadeByContacts(fold, rows)| ==>
              MadeByContacts(fold, rows)[i].tag != "" && MadeByContacts(fold, rows)[i].tag[0] == 'O'
  {
    hide UnitSlug, UnitKey, LinkCount, OnuTag;
    if rows != [] {
      OnusLead(fold, rows[..|rows| - 1]);
      OnuTagLead(UnitSlug(fold, rows[|rows| - 1]), LinkCount(fold, rows, UnitKey(fold, rows[|rows| - 1])));
    }
  }

  lemma {:induction false} StarlinksLead(fold: string -> string, g: Gathered, rows: seq<Starlink>)
    ensures forall i :: 0 <= i < |MadeByStarlinks(fold, g, rows)| ==>
              MadeByStarlinks(fold, g, rows)[i].tag != "" && MadeByStarlinks(fold, g, rows)[i].tag[0] == 'S'
  {
    hide StarlinkSlug, StarlinkUnit, Or;
    if rows != [] {
      StarlinksLead(fold, g, rows[..|rows| - 1]);
    }
  }

  // ---------- main result on equipments ----------

  /** A contact's ONU that nothing replaces, as it is kept. */
  ghost predicate OnuKept(fold: string -> string, contacts: seq<Contact>, c: nat, e: LegacyEquipment) {
    LastOnu(fold, contacts, c) && OnuMade(fold, contacts[c], LinkNumber(fold, contacts, c), e)
  }

  /** A Starlink's equipment that nothing replaces, as it is kept and placed. */
  ghost predicate StarlinkKept(fold: string -> string, contacts: seq<Contact>, starlinks: seq<Starlink>, s: nat,
                               e: LegacyEquipment) {
    && LastStarlink(fold, starlinks, s) && StarlinkMade(fold, starlinks[s], e)
    && PlacedAs(fold, contacts, starlinks[s], e)
  }

  /**
   The equipments of a bundle are exactly the ONUs of the contacts and the Starlinks with a serial number that
   are the last of their tags, with the fields of their rows; a Starlink stands where the contacts say.
   */
  lemma EquipmentsMean(fold: string -> string, contacts: seq<Contact>, partnerRows: seq<PartnerRow>,
                       starlinks: seq<Starlink>)
    ensures var kept := Exported(fold, contacts, partnerRows, starlinks).equipments;
            && (forall e :: e in kept ==>
                  || (exists c: nat :: OnuKept(fold, contacts, c, e))
                  || exists s: nat :: StarlinkKept(fold, contacts, starlinks, s, e))
            && (forall c: nat :: LastOnu(fold, contacts, c) ==> exists e :: e in kept && OnuKept(fold, contacts, c, e))
            && forall s: nat :: LastStarlink(fold, starlinks, s) ==>
                 exists e :: e in kept && StarlinkKept(fold, contacts, starlinks, s, e)
  {
    hide Exported, AfterContacts, AfterPartnerRows, MadeByContacts, MadeByStarlinks, OnuOf, StarlinkOf, LastOnu,
         LastStarlink, UnitsKnown, IdsKnown, NamesKnown, LastMade, KeepsLast, LinkNumber, OnuMade, StarlinkMade,
         PlacedAs;
    var kept := Exported(fold, contacts, partnerRows, starlinks).equipments;
    var g := AfterPartnerRows(fold, AfterContacts(fold, EMPTY_GATHERED, contacts), partnerRows);
    EquipmentsAreLast(fold, contacts, partnerRows, starlinks);
    ContactsKnown(fold, contacts);
    PartnerRowsKeepKnown(fold, AfterContacts(fold, EMPTY_GATHERED, contacts), partnerRows);
    forall e ensures e in kept <==> FromContact(fold, contacts, e) || FromStarlink(fold, g, starlinks, e) {
      KeptIff(fold, contacts, g, starlinks, kept, e);
    }
    forall e | FromContact(fold, contacts, e) ensures exists c: nat :: OnuKept(fold, contacts, c, e) {
      var c: nat :| c < |contacts| && LastOnu(fold, contacts, c)
          && e == OnuOf(fold, contacts[c], LinkNumber(fold, contacts, c));
      OnuIsMade(fold, contacts[c], LinkNumber(fold, contacts, c));
      assert OnuKept(fold, contacts, c, e);
    }
    forall e | FromStarlink(fold, g, starlinks, e)
      ensures exists s: nat :: StarlinkKept(fold, contacts, starlinks, s, e)
    {
      var s: nat :| s < |starlinks| && LastStarlink(fold, starlinks, s) && e == StarlinkOf(fold, g, starlinks[s]);
      StarlinkIsKept(fold, contacts, g, starlinks, s);
    }
    forall c: nat | LastOnu(fold, contacts, c) ensures exists e :: e in kept && OnuKept(fold, contacts, c, e) {
      LastOnuIn(fold, contacts, c);
      OnuIsMade(fold, contacts[c], LinkNumber(fold, contacts, c));
      var e := OnuOf(fold, contacts[c], LinkNumber(fold, contacts, c));
      assert FromContact(fold, contacts, e);
      assert e in kept && OnuKept(fold, contacts, c, e);
    }
    forall s: nat | LastStarlink(fold, starlinks, s)
      ensures exists e :: e in kept && StarlinkKept(fold, contacts, starlinks, s, e)
    {
      StarlinkIsKept(fold, contacts, g, starlinks, s);
      var e := StarlinkOf(fold, g, starlinks[s]);
      assert FromStarlink(fold, g, starlinks, e);
      assert e in kept && StarlinkKept(fold, contacts, starlinks, s, e);
    }
  }

  ghost predicate FromStarlink(fold: string -> string, g: Gathered, rows: seq<Starlink>, e: LegacyEquipment) {
    exists s: nat :: s < |rows| && LastStarlink(fold, rows, s) && e == StarlinkOf(fold, g, rows[s])
  }

  lemma KeptIff(fold: string -> string, contacts: seq<Contact>, g: Gathered, starlinks: seq<Starlink>,
                kept: seq<LegacyEquipment>, e: LegacyEquipment)
    requires KeepsLast(kept, MadeByContacts(fold, contacts) + MadeByStarlinks(fold, g, starlinks))
    ensures e in kept <==> FromContact(fold, contacts, e) || FromStarlink(fold, g, starlinks, e)
  {
    hide MadeByContacts, MadeByStarlinks, OnuOf, StarlinkOf, LastOnu, LastStarlink, LastMade, FromContact, KeepsLast;
    OnusLast(fold, contacts, e);
    StarlinksLast(fold, g, starlinks, e);
    OnusLead(fold, contacts);
    StarlinksLead(fold, g, starlinks);
    LastOfBoth(MadeByContacts(fold, contacts), MadeByStarlinks(fold, g, starlinks), e);
    KeptIsLastMade(kept, MadeByContacts(fold, contacts) + MadeByStarlinks(fold, g, starlinks), e);
  }

  lemma KeptIsLastMade(kept: seq<LegacyEquipment>, made: seq<LegacyEquipment>, e: LegacyEquipment)
    requires KeepsLast(kept, made)
    ensures e in kept <==> LastMade(made, e)
  {
    hide TagsApart;
    if e in kept {
      var k :| 0 <= k < |kept| && kept[k] == e;
    }
  }

  lemma StarlinkIsKept(fold: string -> string, contacts: seq<Contact>, g: Gathered, starlinks: seq<Starlink>, s: nat)
    requires UnitsKnown(fold, contacts, g.units.at) && IdsKnown(fold, contacts, g.unitByContactId)
    requires NamesKnown(fold, contacts, g.unitByNormName) && LastStarlink(fold, starlinks, s)
    ensures s < |starlinks| && StarlinkKept(fold, contacts, starlinks, s, StarlinkOf(fold, g, starlinks[s]))
  {
    hide StarlinkOf, UnitsKnown, IdsKnown, NamesKnown, PlacedAs, StarlinkMade, HasSerial, StarlinkSlug;
    StarlinkIsMade(fold, g, starlinks[s]);
    StarlinkPlaced(fold, contacts, g, starlinks[s]);
  }

  lemma {:induction false} PartnerRowsKeepKnown(fold: string -> string, g: Gathered, rows: seq<PartnerRow>)
    ensures var t := AfterPartnerRows(fold, g, rows);
            t.units == g.units && t.unitByContactId == g.unitByContactId && t.unitByNormName == g.unitByNormName
    decreases |rows|
  {
    hide AddPartner, PartnerSlug, Or, Put;
    if rows != [] {
      PartnerRowsKeepKnown(fold, PartnerRowStep(fold, g, rows[0]), rows[1..]);
    }
  }

  // ---------- units ----------

  lemma {:induction false} OnceEach<T(!new)>(s: seq<T>)
    ensures Distinct(s) <==> forall x :: multiset(s)[x] <= 1
  {
    if s != [] {
      var init, last := s[..|s| - 1], s[|s| - 1];
      OnceEach(init);
      assert s == init + [last];
      OneMoreOnce(init, last);
    }
  }

  lemma OneMoreOnce<T(!new)>(s: seq<T>, x: T)
    requires Distinct(s) <==> forall y :: multiset(s)[y] <= 1
    ensures Distinct(s + [x]) <==> forall y :: multiset(s + [x])[y] <= 1
  {
    var t := s + [x];
    assert multiset(t) == multiset(s) + multiset{x};
    if Distinct(t) {
      NotAgain(s, x);
      assert multiset(s)[x] == 0;
    }
    if forall y :: multiset(t)[y] <= 1 {
      forall y ensures multiset(s)[y] <= 1 {
        assert multiset(t)[y] <= 1;
      }
      assert multiset(t)[x] <= 1;
      assert x !in multiset(s);
    }
  }

  lemma NotAgain<T>(s: seq<T>, x: T)
    requires Distinct(s + [x])
    ensures Distinct(s) && x !in s
  {
    var t := s + [x];
    assert t[|s|] == x && forall i :: 0 <= i < |s| ==> t[i] == s[i];
  }

  /** The values of a dictionary that are told apart by their keys appear once each in the sorted list. */
  lemma SortedOnce<V(!new)>(d: Dict<V>, key: V -> string, own: V -> string)
    requires Valid(d) && forall k :: k in d.at ==> own(d.at[k]) == k
    ensures var sorted := SortByText(Values(d), key);
            forall i, j :: 0 <= i < j < |sorted| ==> own(sorted[i]) != own(sorted[j])
  {
    hide SortByText;
    var values, sorted := Values(d), SortByText(Values(d), key);
    SortKeepsBag(values, key);
    forall i, j | 0 <= i < j < |values| ensures values[i] != values[j] {
      assert own(values[i]) == d.keys[i] && own(values[j]) == d.keys[j];
    }
    OnceEach(values);
    OnceEach(sorted);
    forall i, j | 0 <= i < j < |sorted| ensures own(sorted[i]) != own(sorted[j]) {
      var a := SortedMember(d, key, i);
      var b := SortedMember(d, key, j);
    }
  }

  /** The key under which the dictionary holds a value of the sorted list. */
  lemma SortedMember<V>(d: Dict<V>, key: V -> string, i: nat) returns (k: string)
    requires Valid(d) && i < |SortByText(Values(d), key)|
    ensures k in d.at && d.at[k] == SortByText(Values(d), key)[i]
  {
    hide SortByText;
    var values := Values(d);
    SortKeepsBag(values, key);
    var x := SortByText(values, key)[i];
    assert x in multiset(SortByText(values, key));
    assert x in values;
    var j :| 0 <= j < |Values(d)| && Values(d)[j] == x;
    k := d.keys[j];
  }

  function KeyOfUnit(u: UnitEntry): string { u.row.key }

  function CodeOfPartner(p: PartnerEntry): string { p.code }

  /** The units the contacts name, each once, as its first contact describes it. */
  ghost predicate UnitsAsDescribed(fold: string -> string, contacts: seq<Contact>, units: seq<LegacyUnit>) {
    && (forall i :: 0 <= i < |units| ==> DescribedFirst(fold, contacts, units[i]))
    && (forall c :: 0 <= c < |contacts| ==> HasUnit(units, UnitKey(fold, contacts[c])))
    && forall i, j :: 0 <= i < j < |units| ==> units[i].key != units[j].key
  }

  ghost predicate DescribedFirst(fold: string -> string, contacts: seq<Contact>, u: LegacyUnit) {
    exists c: nat :: FirstOfUnit(fold, contacts, u.key, c) && Describes(fold, contacts[c], u)
  }

  /** The units of a bundle are those its contacts name. */
  lemma UnitsMean(fold: string -> string, contacts: seq<Contact>, partnerRows: seq<PartnerRow>,
                  starlinks: seq<Starlink>)
    ensures UnitsAsDescribed(fold, contacts, Exported(fold, contacts, partnerRows, starlinks).units)
  {
    var g := Gather(fold, contacts, partnerRows, starlinks);
    GatherFits(fold, contacts, partnerRows, starlinks);
    FitsValid(g);
    GatherKnows(fold, contacts, partnerRows, starlinks);
    FitsUnits(g);
    hide Gather, UnitsKnown, UnitsAsDescribed, Fits, UnitsFit, SortByText, Values;
    SortedUnits(fold, contacts, g.units, g.partners.at);
    hide *;
    ExportedUnits(fold, contacts, partnerRows, starlinks);
  }

  lemma ExportedUnits(fold: string -> string, contacts: seq<Contact>, partnerRows: seq<PartnerRow>,
                      starlinks: seq<Starlink>)
    ensures var d := Gather(fold, contacts, partnerRows, starlinks).units;
            && (forall k :: k in d.keys ==> k in d.at)
            && var sorted := SortByText(Values(d), UnitText);
            Exported(fold, contacts, partnerRows, starlinks).units
            == seq(|sorted|, i requires 0 <= i < |sorted| => sorted[i].row)
  {
    hide Gather, Fits, SortByText, Values;
    GatherFits(fold, contacts, partnerRows, starlinks);
    FitsValid(Gather(fold, contacts, partnerRows, starlinks));
  }

  lemma FitsUnits(g: Gathered)
    requires Fits(g)
    ensures UnitsFit(g.units, g.partners.at)
  {
    hide PartnersFit, EquipmentsFit, KeysFit, UnitsFit;
  }

  lemma SortedUnits(fold: string -> string, contacts: seq<Contact>, d: Dict<UnitEntry>,
                    partners: map<string, PartnerEntry>)
    requires UnitsFit(d, partners) && UnitsKnown(fold, contacts, d.at)
    ensures var sorted := SortByText(Values(d), UnitText);
            UnitsAsDescribed(fold, contacts, seq(|sorted|, i requires 0 <= i < |sorted| => sorted[i].row))
  {
    hide UnitKey, UnitSlug, PartnerSlug, IsClean, SortByText, Describes, FirstOfUnit, Values, NoneOfUnit;
    var sorted := SortByText(Values(d), UnitText);
    var units := seq(|sorted|, i requires 0 <= i < |sorted| => sorted[i].row);
    SortedMembers(d, UnitText);
    SortedOnce(d, UnitText, KeyOfUnit);
    forall i, j | 0 <= i < j < |units| ensures units[i].key != units[j].key {
      assert KeyOfUnit(sorted[i]) != KeyOfUnit(sorted[j]);
    }
    forall i | 0 <= i < |units| ensures DescribedFirst(fold, contacts, units[i]) {
      var k := SortedMember(d, UnitText, i);
      var c := FindFirstOfUnit(fold, contacts, k, 0);
    }
    forall c | 0 <= c < |contacts| ensures HasUnit(units, UnitKey(fold, contacts[c])) {
      var key := UnitKey(fold, contacts[c]);
      FirstIsThere(fold, contacts, key, c);
      var i :| 0 <= i < |sorted| && sorted[i] == d.at[key];
      assert units[i].key == key;
    }
  }

  lemma FirstIsThere(fold: string -> string, rows: seq<Contact>, key: string, c: nat)
    requires c < |rows| && UnitKey(fold, rows[c]) == key
    ensures exists f: nat :: FirstOfUnit(fold, rows, key, f)
  {
    hide UnitKey;
    var f := FindFirstOfUnit(fold, rows, key, 0);
  }

  lemma GatherKnows(fold: string -> string, contacts: seq<Contact>, partnerRows: seq<PartnerRow>,
                    starlinks: seq<Starlink>)
    ensures UnitsKnown(fold, contacts, Gather(fold, contacts, partnerRows, starlinks).units.at)
  {
    hide AfterContacts, AfterPartnerRows, AfterStarlinks, UnitsKnown, IdsKnown, NamesKnown, Keeps, MadeByContacts;
    var withContacts := AfterContacts(fold, EMPTY_GATHERED, contacts);
    ContactsKnown(fold, contacts);
    ContactsMake(fold, contacts);
    PartnerRowsKeepKnown(fold, withContacts, partnerRows);
    PartnerRowsKeepEquipments(fold, withContacts, partnerRows);
    StarlinksMake(fold, AfterPartnerRows(fold, withContacts, partnerRows), MadeByContacts(fold, contacts), starlinks);
  }

  // ---------- partners ----------

  /** The partners the contacts name, in order: the main one, then the backup if there is one. */
  function Named(contacts: seq<Contact>): seq<string> {
    if contacts == [] then []
    else
      var init, row := contacts[..|contacts| - 1], contacts[|contacts| - 1];
      Named(init) + [PartnerName(row.partner)] + if row.backupPartner == "" then [] else [row.backupPartner]
  }

  /** The partners the partner table names. */
  function NamedInTable(rows: seq<PartnerRow>): seq<string> {
    seq(|rows|, i requires 0 <= i < |rows| => PartnerName(rows[i].partner))
  }

  /** The contacts whose main partner has the code, in order. */
  function ContactsOf(fold: string -> string, contacts: seq<Contact>, code: string): seq<string> {
    if contacts == [] then []
    else
      var init, row := contacts[..|contacts| - 1], contacts[|contacts| - 1];
      ContactsOf(fold, init, code) + if PartnerSlug(fold, PartnerName(row.partner)) == code then [row.id] else []
  }

  ghost predicate FirstMention(fold: string -> string, names: seq<string>, code: string, i: nat) {
    i < |names| && PartnerSlug(fold, names[i]) == code && forall j :: 0 <= j < i ==> PartnerSlug(fold, names[j]) != code
  }

  ghost predicate Mentioned(fold: string -> string, names: seq<string>, code: string) {
    exists i :: 0 <= i < |names| && PartnerSlug(fold, names[i]) == code
  }

  /** Every partner has the name of its first mention. */
  ghost predicate PartnersKnown(fold: string -> string, names: seq<string>, partners: map<string, PartnerEntry>) {
    && (forall code :: code in partners <==> Mentioned(fold, names, code))
    && (forall code, i: nat :: FirstMention(fold, names, code, i) ==>
          code in partners && partners[code].code == code && partners[code].name == names[i])
  }

  ghost predicate IdsListed(fold: string -> string, contacts: seq<Contact>, partners: map<string, PartnerEntry>) {
    && (forall code :: code in partners ==> partners[code].contactIds == ContactsOf(fold, contacts, code))
    && (forall code :: code !in partners ==> ContactsOf(fold, contacts, code) == [])
  }

  lemma MentionNext(fold: string -> string, names: seq<string>, partners: Dict<PartnerEntry>, name: string)
    requires PartnersKnown(fold, names, partners.at) && name != ""
    ensures PartnersKnown(fold, names + [name], AddPartner(fold, partners, name).at)
  {
    hide PartnerSlug;
    var all, after := names + [name], AddPartner(fold, partners, name).at;
    assert all[|names|] == name && forall j :: 0 <= j < |names| ==> all[j] == names[j];
    forall code ensures code in after <==> Mentioned(fold, all, code) {
      MentionedNext(fold, names, name, code);
    }
    forall code, i: nat | FirstMention(fold, all, code, i)
      ensures code in after && after[code].code == code && after[code].name == all[i]
    {
      if i < |names| {
        assert FirstMention(fold, names, code, i);
      } else {
        assert !Mentioned(fold, names, code);
      }
    }
  }

  lemma MentionedNext(fold: string -> string, names: seq<string>, name: string, code: string)
    ensures Mentioned(fold, names + [name], code) <==> Mentioned(fold, names, code) || PartnerSlug(fold, name) == code
  {
    hide PartnerSlug;
    var all := names + [name];
    assert all[|names|] == name;
    if Mentioned(fold, names, code) {
      var i :| 0 <= i < |names| && PartnerSlug(fold, names[i]) == code;
      assert all[i] == names[i];
    }
  }

  /** Counting at a partner that is there leaves codes and names alone. */
  lemma CountedKnown(fold: string -> string, names: seq<string>, partners: Dict<PartnerEntry>, code: string,
                     p: PartnerEntry)
    requires PartnersKnown(fold, names, partners.at) && code in partners.at
    requires p.code == partners.at[code].code && p.name == partners.at[code].name
    ensures PartnersKnown(fold, names, Put(partners, code, p).at)
  {
    hide Mentioned, FirstMention;
  }

  lemma AddListsNothing(fold: string -> string, contacts: seq<Contact>, partners: Dict<PartnerEntry>, name: string)
    requires IdsListed(fold, contacts, partners.at)
    ensures IdsListed(fold, contacts, AddPartner(fold, partners, name).at)
  {
    hide PartnerSlug, ContactsOf;
  }

  /** The partners after one more contact. */
  lemma PartnersNext(fold: string -> string, contacts: seq<Contact>, partners: Dict<PartnerEntry>, row: Contact)
    requires PartnersKnown(fold, Named(contacts), partners.at) && IdsListed(fold, contacts, partners.at)
    ensures PartnersKnown(fold, Named(contacts + [row]), PartnersAfter(fold, partners, row).at)
    ensures IdsListed(fold, contacts + [row], PartnersAfter(fold, partners, row).at)
  {
    hide PartnerSlug, PartnersKnown, IdsListed, AddPartner, Put;
    var name := PartnerName(row.partner);
    var code := PartnerSlug(fold, name);
    var added := AddPartner(fold, partners, name);
    assert (contacts + [row])[..|contacts|] == contacts;
    MentionNext(fold, Named(contacts), partners, name);
    AddListsNothing(fold, contacts, partners, name);
    var main := added.at[code];
    var edited := main.(primaryUnits := main.primaryUnits + 1, contactIds := main.contactIds + [row.id]);
    CountedKnown(fold, Named(contacts) + [name], added, code, edited);
    ListedNext(fold, contacts, added, row, edited);
    var counted := Put(added, code, edited);
    if row.backupPartner == "" {
      assert Named(contacts) + [name] + [] == Named(contacts) + [name];
    } else {
      var withBackup := AddPartner(fold, counted, row.backupPartner);
      MentionNext(fold, Named(contacts) + [name], counted, row.backupPartner);
      AddListsNothing(fold, contacts + [row], counted, row.backupPartner);
      var other := PartnerSlug(fold, row.backupPartner);
      var backup := withBackup.at[other];
      CountedKnown(fold, Named(contacts) + [name] + [row.backupPartner], withBackup, other,
                   backup.(backupUnits := backup.backupUnits + 1));
      CountedLists(fold, contacts + [row], withBackup, other, backup.(backupUnits := backup.backupUnits + 1));
    }
  }

  lemma ListedNext(fold: string -> string, contacts: seq<Contact>, partners: Dict<PartnerEntry>, row: Contact,
                   edited: PartnerEntry)
    requires IdsListed(fold, contacts, partners.at) && PartnerSlug(fold, PartnerName(row.partner)) in partners.at
    requires edited.contactIds == partners.at[PartnerSlug(fold, PartnerName(row.partner))].contactIds + [row.id]
    ensures IdsListed(fold, contacts + [row], Put(partners, PartnerSlug(fold, PartnerName(row.partner)), edited).at)
  {
    hide PartnerSlug;
    assert (contacts + [row])[..|contacts|] == contacts;
    assert forall code :: ContactsOf(fold, contacts, code) + [] == ContactsOf(fold, contacts, code);
  }

  lemma CountedLists(fold: string -> string, contacts: seq<Contact>, partners: Dict<PartnerEntry>, code: string,
                     p: PartnerEntry)
    requires IdsListed(fold, contacts, partners.at) && code in partners.at
        && p.contactIds == partners.at[code].contactIds
    ensures IdsListed(fold, contacts, Put(partners, code, p).at)
  {
    hide ContactsOf;
  }

  lemma {:induction false} ContactPartnersKnown(fold: string -> string, contacts: seq<Contact>)
    ensures var g := AfterContacts(fold, EMPTY_GATHERED, contacts);
            PartnersKnown(fold, Named(contacts), g.partners.at) && IdsListed(fold, contacts, g.partners.at)
  {
    hide PartnersKnown, IdsListed, PartnersAfter, UnitAfter, WithOnu, UnitKey, Norm, Named;
    if contacts == [] {
      NobodyNamed(fold);
    } else {
      var init, row := contacts[..|contacts| - 1], contacts[|contacts| - 1];
      assert contacts == init + [row];
      ContactsSnoc(fold, EMPTY_GATHERED, contacts);
      ContactPartnersKnown(fold, init);
      hide AfterContacts;
      PartnersNext(fold, init, AfterContacts(fold, EMPTY_GATHERED, init).partners, row);
    }
  }

  lemma NobodyNamed(fold: string -> string)
    ensures PartnersKnown(fold, Named([]), EMPTY_GATHERED.partners.at)
    ensures IdsListed(fold, [], EMPTY_GATHERED.partners.at)
  {
  }

  lemma {:induction false} PartnerRowsKnown(fold: string -> string, g: Gathered, names: seq<string>,
                                            contacts: seq<Contact>, rows: seq<PartnerRow>)
    requires PartnersKnown(fold, names, g.partners.at) && IdsListed(fold, contacts, g.partners.at)
    ensures var after := AfterPartnerRows(fold, g, rows).partners.at;
            PartnersKnown(fold, names + NamedInTable(rows), after) && IdsListed(fold, contacts, after)
    decreases |rows|
  {
    hide PartnersKnown, IdsListed, AddPartner, PartnerSlug, Put;
    if rows == [] {
      assert names + NamedInTable(rows) == names;
    } else {
      var name := PartnerName(rows[0].partner);
      var added := AddPartner(fold, g.partners, name);
      var entry := added.at[PartnerSlug(fold, name)];
      var more := entry.(contacts := entry.contacts + [rows[0].id]);
      MentionNext(fold, names, g.partners, name);
      AddListsNothing(fold, contacts, g.partners, name);
      CountedKnown(fold, names + [name], added, PartnerSlug(fold, name), more);
      CountedLists(fold, contacts, added, PartnerSlug(fold, name), more);
      PartnerRowsKnown(fold, PartnerRowStep(fold, g, rows[0]), names + [name], contacts, rows[1..]);
      assert names + [name] + NamedInTable(rows[1..]) == names + NamedInTable(rows);
    }
  }

  /** The partners of the names, each once, under its first name and with the contacts it is the main partner of. */
  ghost predicate PartnersAsNamed(fold: string -> string, contacts: seq<Contact>, names: seq<string>,
                                  partners: seq<LegacyPartner>) {
    && (forall i :: 0 <= i < |partners| ==>
          && partners[i].contactIds == ContactsOf(fold, contacts, partners[i].code)
          && NamedFirst(fold, names, partners[i]))
    && (forall m :: 0 <= m < |names| ==> HasPartner(partners, PartnerSlug(fold, names[m])))
    && forall i, j :: 0 <= i < j < |partners| ==> partners[i].code != partners[j].code
  }

  ghost predicate NamedFirst(fold: string -> string, names: seq<string>, p: LegacyPartner) {
    exists m: nat :: m < |names| && FirstMention(fold, names, p.code, m) && p.name == names[m]
  }

  /** The partners of a bundle are those that contacts or the partner table name. */
  lemma PartnersMean(fold: string -> string, contacts: seq<Contact>, partnerRows: seq<PartnerRow>,
                     starlinks: seq<Starlink>)
    ensures PartnersAsNamed(fold, contacts, Named(contacts) + NamedInTable(partnerRows),
                            Exported(fold, contacts, partnerRows, starlinks).partners)
  {
    var g := Gather(fold, contacts, partnerRows, starlinks);
    GatherFits(fold, contacts, partnerRows, starlinks);
    FitsValid(g);
    GatherNames(fold, contacts, partnerRows, starlinks);
    FitsPartners(g);
    hide Gather, PartnersKnown, IdsListed, PartnersAsNamed, Fits, PartnersFit, SortByText, Values, Named, NamedInTable;
    SortedPartners(fold, contacts, Named(contacts) + NamedInTable(partnerRows), g.partners);
    hide *;
    ExportedPartners(fold, contacts, partnerRows, starlinks);
  }

  lemma ExportedPartners(fold: string -> string, contacts: seq<Contact>, partnerRows: seq<PartnerRow>,
                         starlinks: seq<Starlink>)
    ensures var d := Gather(fold, contacts, partnerRows, starlinks).partners;
            && (forall k :: k in d.keys ==> k in d.at)
            && var sorted := SortByText(Values(d), PartnerText);
            Exported(fold, contacts, partnerRows, starlinks).partners
            == seq(|sorted|, i requires 0 <= i < |sorted| => ToPartner(sorted[i]))
  {
    hide Gather, Fits, SortByText, Values;
    GatherFits(fold, contacts, partnerRows, starlinks);
    FitsValid(Gather(fold, contacts, partnerRows, starlinks));
  }

  lemma FitsPartners(g: Gathered)
    requires Fits(g)
    ensures PartnersFit(g.partners)
  {
    hide PartnersFit, EquipmentsFit, KeysFit, UnitsFit;
  }

  lemma SortedPartners(fold: string -> string, contacts: seq<Contact>, names: seq<string>, d: Dict<PartnerEntry>)
    requires PartnersFit(d) && PartnersKnown(fold, names, d.at) && IdsListed(fold, contacts, d.at)
    ensures var sorted := SortByText(Values(d), PartnerText);
            PartnersAsNamed(fold, contacts, names,
                            seq(|sorted|, i requires 0 <= i < |sorted| => ToPartner(sorted[i])))
  {
    hide PartnerSlug, IsClean, SortByText, Values, ContactsOf, PartnersKnown, IdsListed, NamedFirst, Valid;
    PartnersValid(d);
    var sorted := SortByText(Values(d), PartnerText);
    var partners := seq(|sorted|, i requires 0 <= i < |sorted| => ToPartner(sorted[i]));
    SortedMembers(d, PartnerText);
    SortedOnce(d, PartnerText, CodeOfPartner);
    forall i, j | 0 <= i < j < |partners| ensures partners[i].code != partners[j].code {
      assert CodeOfPartner(sorted[i]) != CodeOfPartner(sorted[j]);
    }
    forall i | 0 <= i < |partners|
      ensures partners[i].contactIds == ContactsOf(fold, contacts, partners[i].code)
          && NamedFirst(fold, names, partners[i])
    {
      var k := SortedMember(d, PartnerText, i);
      PartnerKnown(fold, contacts, names, d, k);
    }
    forall m | 0 <= m < |names| ensures HasPartner(partners, PartnerSlug(fold, names[m])) {
      var code := PartnerSlug(fold, names[m]);
      MentionIsKnown(fold, names, d, m);
      var i :| 0 <= i < |sorted| && sorted[i] == d.at[code];
      assert partners[i].code == code;
    }
  }

  lemma PartnersValid(d: Dict<PartnerEntry>)
    requires PartnersFit(d)
    ensures Valid(d) && forall k :: k in d.keys ==> k in d.at
  {
    hide IsClean;
  }

  lemma PartnerKnown(fold: string -> string, contacts: seq<Contact>, names: seq<string>, d: Dict<PartnerEntry>,
                     code: string)
    requires PartnersKnown(fold, names, d.at) && IdsListed(fold, contacts, d.at) && code in d.at
    ensures d.at[code].contactIds == ContactsOf(fold, contacts, d.at[code].code)
    ensures d.at[code].code == code && NamedFirst(fold, names, ToPartner(d.at[code]))
  {
    hide PartnerSlug, ContactsOf, Mentioned, FirstMention;
    var m := FindFirstMention(fold, names, code, 0);
  }

  lemma MentionIsKnown(fold: string -> string, names: seq<string>, d: Dict<PartnerEntry>, m: nat)
    requires PartnersKnown(fold, names, d.at) && m < |names|
    ensures PartnerSlug(fold, names[m]) in d.at
  {
    hide PartnerSlug, FirstMention;
    assert Mentioned(fold, names, PartnerSlug(fold, names[m]));
  }

  lemma {:induction false} FindFirstMention(fold: string -> string, names: seq<string>, code: string, n: nat)
    returns (i: nat)
    requires n <= |names| && Mentioned(fold, names, code)
    requires forall j :: 0 <= j < n ==> PartnerSlug(fold, names[j]) != code
    ensures FirstMention(fold, names, code, i) && i < |names|
    decreases |names| - n
  {
    hide PartnerSlug;
    assert n < |names|;
    if PartnerSlug(fold, names[n]) == code {
      i := n;
    } else {
      i := FindFirstMention(fold, names, code, n + 1);
    }
  }

  lemma GatherNames(fold: string -> string, contacts: seq<Contact>, partnerRows: seq<PartnerRow>,
                    starlinks: seq<Starlink>)
    ensures var partners := Gather(fold, contacts, partnerRows, starlinks).partners.at;
            PartnersKnown(fold, Named(contacts) + NamedInTable(partnerRows), partners)
            && IdsListed(fold, contacts, partners)
  {
    hide AfterContacts, AfterPartnerRows, AfterStarlinks, PartnersKnown, IdsListed, Keeps, MadeByContacts, Named,
         NamedInTable;
    var withContacts := AfterContacts(fold, EMPTY_GATHERED, contacts);
    ContactPartnersKnown(fold, contacts);
    PartnerRowsKnown(fold, withContacts, Named(contacts), contacts, partnerRows);
    ContactsMake(fold, contacts);
    PartnerRowsKeepEquipments(fold, withContacts, partnerRows);
    StarlinksMake(fold, AfterPartnerRows(fold, withContacts, partnerRows), MadeByContacts(fold, contacts), starlinks);
  }
}
