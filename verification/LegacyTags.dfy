/**
 Which equipments the exporter of apps/api/scripts/export-legacy-sqlite.py keeps: they share one dictionary
 by tag, so one that is made later replaces an earlier one of the same tag.
 */
module LegacyTags {
  import opened LegacyBundle
  import opened LegacyCodes
  import opened LegacyExport
  import opened LegacyImport
  import opened Text
  import opened Uniqueness

  // ---------- a dictionary filled in order ----------

  ghost predicate Last(made: seq<LegacyEquipment>, i: nat)
    requires i < |made|
  {
    forall j :: i < j < |made| ==> made[j].tag != made[i].tag
  }

  predicate TagsApart(made: seq<LegacyEquipment>) {
    forall i, j :: 0 <= i < j < |made| ==> made[i].tag != made[j].tag
  }

  ghost predicate Makes(made: seq<LegacyEquipment>, tag: string) {
    exists i :: 0 <= i < |made| && made[i].tag == tag
  }

  /**
   The dictionary holds the last equipment made under each tag; it is as long as what was made only if none was
   replaced.
   */
  ghost predicate Keeps(d: Dict<LegacyEquipment>, made: seq<LegacyEquipment>) {
    && Valid(d) && (forall t :: t in d.at <==> Makes(made, t))
    && (forall i :: 0 <= i < |made| && Last(made, i) ==> made[i].tag in d.at && d.at[made[i].tag] == made[i])
    && (forall t :: t in d.at ==> d.at[t].tag == t)
    && |d.keys| <= |made| && (|d.keys| == |made| <==> TagsApart(made))
  }

  lemma KeepsNext(d: Dict<LegacyEquipment>, made: seq<LegacyEquipment>, e: LegacyEquipment)
    requires Keeps(d, made)
    ensures Keeps(Put(d, e.tag, e), made + [e])
  {
    var t, all := Put(d, e.tag, e), made + [e];
    PutValid(d, e.tag, e);
    hide Valid, TagsApart, Makes;
    MakesNext(made, e);
    forall i | 0 <= i < |all| && Last(all, i) ensures all[i].tag in t.at && t.at[all[i].tag] == all[i] {
      if i < |made| {
        assert all[|made|] == e;
        assert Last(made, i) by { LastBefore(made, e, i); }
      }
    }
    TagsApartNext(made, e);
  }

  lemma LastBefore(made: seq<LegacyEquipment>, e: LegacyEquipment, i: nat)
    requires i < |made| && Last(made + [e], i)
    ensures Last(made, i)
  {
    forall j | i < j < |made| ensures made[j].tag != made[i].tag {
      assert (made + [e])[j] == made[j];
    }
  }

  lemma MakesNext(made: seq<LegacyEquipment>, e: LegacyEquipment)
    ensures forall t :: Makes(made + [e], t) <==> Makes(made, t) || t == e.tag
  {
    forall t ensures Makes(made + [e], t) <==> Makes(made, t) || t == e.tag {
      if Makes(made, t) {
        var i :| 0 <= i < |made| && made[i].tag == t;
        assert (made + [e])[i].tag == t;
      }
      assert (made + [e])[|made|] == e;
    }
  }

  lemma TagsApartNext(made: seq<LegacyEquipment>, e: LegacyEquipment)
    ensures TagsApart(made + [e]) <==> TagsApart(made) && !Makes(made, e.tag)
  {
    var all := made + [e];
    if TagsApart(all) {
      forall i, j | 0 <= i < j < |made| ensures made[i].tag != made[j].tag {
        assert all[i] == made[i] && all[j] == made[j];
      }
      if Makes(made, e.tag) {
        var i :| 0 <= i < |made| && made[i].tag == e.tag;
        ApartFromLast(made, e, i);
        assert false;
      }
    }
  }

  lemma ApartFromLast(made: seq<LegacyEquipment>, e: LegacyEquipment, i: nat)
    requires TagsApart(made + [e]) && i < |made|
    ensures made[i].tag != e.tag
  {
    assert (made + [e])[i] == made[i] && (made + [e])[|made|] == e;
  }

  // ---------- what the loops make ----------

  /** How many of the contacts belong to the unit of this key. */
  function LinkCount(fold: string -> string, rows: seq<Contact>, key: string): nat {
    if rows == [] then 0
    else
      var last := |rows| - 1;
      LinkCount(fold, rows[..last], key) + if UnitKey(fold, rows[last]) == key then 1 else 0
  }

  /** The unit code and link number of each contact that has an ONU. */
  function Onus(fold: string -> string, rows: seq<Contact>): seq<(string, nat)> {
    if rows == [] then []
    else
      var init, row := rows[..|rows| - 1], rows[|rows| - 1];
      Onus(fold, init)
      + if row.macOnu == "" then [] else [(UnitSlug(fold, row), LinkCount(fold, rows, UnitKey(fold, row)))]
  }

  function OnuOf(fold: string -> string, row: Contact, link: nat): LegacyEquipment {
    LegacyEquipment(OnuTag(UnitSlug(fold, row), link), "ONU " + row.unitName, "onu", row.macOnu, "active",
                    UnitKey(fold, row), UnitSlug(fold, row), "contatos.mac_onu", row.id)
  }

  /** The equipments of the contact loop, in the order they are made. */
  function MadeByContacts(fold: string -> string, rows: seq<Contact>): seq<LegacyEquipment> {
    if rows == [] then []
    else
      var init, row := rows[..|rows| - 1], rows[|rows| - 1];
      MadeByContacts(fold, init)
      + if row.macOnu == "" then [] else [OnuOf(fold, row, LinkCount(fold, rows, UnitKey(fold, row)))]
  }

  /** A Starlink has an equipment if it has a serial number. */
  function SerialOf(row: Starlink): string {
    Or(row.kitSerial, row.antennaSerial)
  }

  function StarlinkSlug(fold: string -> string, row: Starlink): string {
    Slug(fold, Or(row.antennaId, row.id), "SEM-ID", 24)
  }

  function StarlinkOf(fold: string -> string, g: Gathered, row: Starlink): LegacyEquipment {
    var key := StarlinkUnit(fold, g, row);
    LegacyEquipment("STARLINK-" + StarlinkSlug(fold, row), "Starlink " + Or(row.localName, Or(row.antennaId, row.id)),
                    "starlink", SerialOf(row), if key != "" then "active" else "stock", key,
                    if key in g.units.at then g.units.at[key].row.code else "", "starlinks", row.id)
  }

  function MadeByStarlinks(fold: string -> string, g: Gathered, rows: seq<Starlink>): seq<LegacyEquipment> {
    if rows == [] then []
    else
      var init, row := rows[..|rows| - 1], rows[|rows| - 1];
      MadeByStarlinks(fold, g, init) + if SerialOf(row) == "" then [] else [StarlinkOf(fold, g, row)]
  }

  function StarlinkSlugs(fold: string -> string, rows: seq<Starlink>): seq<string> {
    if rows == [] then []
    else
      var init, row := rows[..|rows| - 1], rows[|rows| - 1];
      StarlinkSlugs(fold, init) + if SerialOf(row) == "" then [] else [StarlinkSlug(fold, row)]
  }

  /** All equipments the exporter makes. */
  function Made(fold: string -> string, contacts: seq<Contact>, partnerRows: seq<PartnerRow>,
                starlinks: seq<Starlink>): seq<LegacyEquipment> {
    var g := AfterPartnerRows(fold, AfterContacts(fold, EMPTY_GATHERED, contacts), partnerRows);
    MadeByContacts(fold, contacts) + MadeByStarlinks(fold, g, starlinks)
  }

  // ---------- the loops row by row ----------

  lemma {:induction false} ContactsSnoc(fold: string -> string, g: Gathered, rows: seq<Contact>)
    requires rows != []
    ensures AfterContacts(fold, g, rows)
         == ContactStep(fold, AfterContacts(fold, g, rows[..|rows| - 1]), rows[|rows| - 1])
    decreases |rows|
  {
    hide ContactStep;
    if |rows| == 1 {
      assert rows[1..] == [] && rows[..0] == [];
    } else {
      var init := rows[..|rows| - 1];
      assert rows[1..][..|rows| - 2] == init[1..] && init[0] == rows[0];
      ContactsSnoc(fold, ContactStep(fold, g, rows[0]), rows[1..]);
    }
  }

  lemma {:induction false} StarlinksSnoc(fold: string -> string, g: Gathered, rows: seq<Starlink>)
    requires rows != []
    ensures AfterStarlinks(fold, g, rows)
         == StarlinkStep(fold, AfterStarlinks(fold, g, rows[..|rows| - 1]), rows[|rows| - 1])
    decreases |rows|
  {
    hide StarlinkStep;
    if |rows| == 1 {
      assert rows[1..] == [] && rows[..0] == [];
    } else {
      var init := rows[..|rows| - 1];
      assert rows[1..][..|rows| - 2] == init[1..] && init[0] == rows[0];
      StarlinksSnoc(fold, StarlinkStep(fold, g, rows[0]), rows[1..]);
    }
  }

  /** A unit has as many links as it has contacts so far. */
  ghost predicate LinksCounted(fold: string -> string, units: Dict<UnitEntry>, rows: seq<Contact>) {
    && (forall k :: k in units.at ==> units.at[k].links == LinkCount(fold, rows, k))
    && forall k :: k !in units.at ==> LinkCount(fold, rows, k) == 0
  }

  lemma LinksNext(fold: string -> string, units: Dict<UnitEntry>, rows: seq<Contact>, row: Contact)
    requires LinksCounted(fold, units, rows)
    ensures var unit := UnitAfter(fold, units, row);
            && unit.links == LinkCount(fold, rows + [row], UnitKey(fold, row))
            && LinksCounted(fold, Put(units, UnitKey(fold, row), unit), rows + [row])
  {
    hide UnitKey, UnitSlug, PartnerSlug, AddText, Or;
    assert (rows + [row])[..|rows|] == rows;
  }

  lemma {:induction false} ContactsMake(fold: string -> string, rows: seq<Contact>)
    ensures var g := AfterContacts(fold, EMPTY_GATHERED, rows);
            LinksCounted(fold, g.units, rows) && Keeps(g.equipments, MadeByContacts(fold, rows))
  {
    hide ContactStep, Keeps, LinksCounted, OnuOf, UnitKey, LinkCount;
    if rows == [] {
      NothingMade(fold);
    } else {
      var init, row := rows[..|rows| - 1], rows[|rows| - 1];
      var before := AfterContacts(fold, EMPTY_GATHERED, init);
      assert rows == init + [row];
      ContactsSnoc(fold, EMPTY_GATHERED, rows);
      ContactsMake(fold, init);
      hide AfterContacts;
      LinksNext(fold, before.units, init, row);
      ContactKeeps(fold, before, init, row);
    }
  }

  lemma NothingMade(fold: string -> string)
    ensures LinksCounted(fold, EMPTY_GATHERED.units, []) && Keeps(EMPTY_GATHERED.equipments, [])
  {
  }

  lemma ContactKeeps(fold: string -> string, g: Gathered, rows: seq<Contact>, row: Contact)
    requires Keeps(g.equipments, MadeByContacts(fold, rows))
    requires UnitAfter(fold, g.units, row).links == LinkCount(fold, rows + [row], UnitKey(fold, row))
    ensures var after := ContactStep(fold, g, row);
            && after.units == Put(g.units, UnitKey(fold, row), UnitAfter(fold, g.units, row))
            && Keeps(after.equipments, MadeByContacts(fold, rows + [row]))
  {
    hide Keeps, UnitAfter, UnitKey, UnitSlug, PartnersAfter, OnuTag, LinkCount, Norm, Put;
    assert (rows + [row])[..|rows|] == rows;
    if row.macOnu != "" {
      KeepsNext(g.equipments, MadeByContacts(fold, rows), OnuOf(fold, row, UnitAfter(fold, g.units, row).links));
    } else {
      assert MadeByContacts(fold, rows) + [] == MadeByContacts(fold, rows);
    }
  }

  lemma {:induction false} PartnerRowsKeepEquipments(fold: string -> string, g: Gathered, rows: seq<PartnerRow>)
    ensures AfterPartnerRows(fold, g, rows).equipments == g.equipments
    decreases |rows|
  {
    hide AddPartner, PartnerSlug, Or, Put;
    if rows != [] {
      PartnerRowsKeepEquipments(fold, PartnerRowStep(fold, g, rows[0]), rows[1..]);
    }
  }

  lemma {:induction false} StarlinksMake(fold: string -> string, g: Gathered, made: seq<LegacyEquipment>,
                                         rows: seq<Starlink>)
    requires Keeps(g.equipments, made)
    ensures var after := AfterStarlinks(fold, g, rows);
            && after == g.(equipments := after.equipments)
            && Keeps(after.equipments, made + MadeByStarlinks(fold, g, rows))
  {
    hide StarlinkStep, Keeps, StarlinkOf;
    if rows == [] {
      assert made + [] == made;
    } else {
      var init, row := rows[..|rows| - 1], rows[|rows| - 1];
      StarlinksSnoc(fold, g, rows);
      StarlinksMake(fold, g, made, init);
      hide AfterStarlinks;
      var before := AfterStarlinks(fold, g, init);
      StarlinkMakes(fold, before, row);
      SameStarlink(fold, g, before, row);
      var sofar := made + MadeByStarlinks(fold, g, init);
      if SerialOf(row) != "" {
        KeepsNext(before.equipments, sofar, StarlinkOf(fold, g, row));
        assert sofar + [StarlinkOf(fold, g, row)]
            == made + (MadeByStarlinks(fold, g, init) + [StarlinkOf(fold, g, row)]);
      } else {
        assert MadeByStarlinks(fold, g, init) + [] == MadeByStarlinks(fold, g, init);
      }
    }
  }

  lemma StarlinkMakes(fold: string -> string, g: Gathered, row: Starlink)
    ensures StarlinkStep(fold, g, row)
         == if SerialOf(row) == "" then g
            else g.(equipments := Put(g.equipments, StarlinkOf(fold, g, row).tag, StarlinkOf(fold, g, row)))
  {
    hide Slug, StarlinkUnit, Put, Or;
  }

  lemma SameStarlink(fold: string -> string, a: Gathered, b: Gathered, row: Starlink)
    requires b == a.(equipments := b.equipments)
    ensures StarlinkOf(fold, b, row) == StarlinkOf(fold, a, row)
  {
    hide Slug, Norm, Or;
  }

  // ---------- main results ----------

  ghost predicate LastMade(made: seq<LegacyEquipment>, e: LegacyEquipment) {
    exists i :: 0 <= i < |made| && Last(made, i) && made[i] == e
  }

  /** Exactly the last equipment made under each tag is kept, and all are if and only if no two have the same tag. */
  ghost predicate KeepsLast(kept: seq<LegacyEquipment>, made: seq<LegacyEquipment>) {
    && (forall k :: 0 <= k < |kept| ==> LastMade(made, kept[k]))
    && (forall i :: 0 <= i < |made| && Last(made, i) ==> made[i] in kept)
    && |kept| <= |made| && (|kept| == |made| <==> TagsApart(made))
  }

  /**
   Every equipment of a bundle is the last one made under its tag, every such one is in the bundle, and none
   is missing if and only if no two have the same tag.
   */
  lemma EquipmentsAreLast(fold: string -> string, contacts: seq<Contact>, partnerRows: seq<PartnerRow>,
                          starlinks: seq<Starlink>)
    ensures KeepsLast(Exported(fold, contacts, partnerRows, starlinks).equipments,
                      Made(fold, contacts, partnerRows, starlinks))
  {
    var gathered := Gather(fold, contacts, partnerRows, starlinks);
    GatherFits(fold, contacts, partnerRows, starlinks);
    FitsValid(gathered);
    GatherKeeps(fold, contacts, partnerRows, starlinks);
    hide Gather, Fits, Made, KeepsLast, Keeps, SortByText, Values;
    KeptAreLast(gathered.equipments, Made(fold, contacts, partnerRows, starlinks));
  }

  lemma GatherKeeps(fold: string -> string, contacts: seq<Contact>, partnerRows: seq<PartnerRow>,
                    starlinks: seq<Starlink>)
    ensures Keeps(Gather(fold, contacts, partnerRows, starlinks).equipments,
                  Made(fold, contacts, partnerRows, starlinks))
  {
    hide AfterContacts, AfterPartnerRows, AfterStarlinks, MadeByContacts, MadeByStarlinks, Keeps;
    var g := AfterPartnerRows(fold, AfterContacts(fold, EMPTY_GATHERED, contacts), partnerRows);
    ContactsMake(fold, contacts);
    PartnerRowsKeepEquipments(fold, AfterContacts(fold, EMPTY_GATHERED, contacts), partnerRows);
    StarlinksMake(fold, g, MadeByContacts(fold, contacts), starlinks);
  }

  lemma KeptAreLast(d: Dict<LegacyEquipment>, made: seq<LegacyEquipment>)
    requires Keeps(d, made)
    ensures KeepsLast(SortByText(Values(d), EquipmentText), made)
  {
    hide SortByText, TagsApart, Values;
    var kept := SortByText(Values(d), EquipmentText);
    ValuesLength(d);
    SortedMembers(d, EquipmentText);
    SortKeepsBag(Values(d), EquipmentText);
    forall k | 0 <= k < |kept| ensures LastMade(made, kept[k]) {
      KeptIsLast(d, made, kept[k]);
    }
    forall i | 0 <= i < |made| && Last(made, i) ensures made[i] in kept {
      assert d.at[made[i].tag] == made[i];
    }
  }

  lemma ValuesLength(d: Dict<LegacyEquipment>)
    requires Valid(d)
    ensures |Values(d)| == |d.keys|
  {
  }

  lemma KeptIsLast(d: Dict<LegacyEquipment>, made: seq<LegacyEquipment>, e: LegacyEquipment)
    requires Keeps(d, made) && exists t :: t in d.at && d.at[t] == e
    ensures LastMade(made, e)
  {
    var t :| t in d.at && d.at[t] == e;
    assert Makes(made, t);
    var i := LastUnder(made, t, |made|);
  }

  lemma {:induction false} LastUnder(made: seq<LegacyEquipment>, tag: string, n: nat) returns (i: nat)
    requires n <= |made| && forall j :: n <= j < |made| ==> made[j].tag != tag
    requires exists j :: 0 <= j < n && made[j].tag == tag
    ensures i < |made| && made[i].tag == tag && Last(made, i)
    decreases n
  {
    if made[n - 1].tag == tag {
      i := n - 1;
    } else {
      i := LastUnder(made, tag, n - 1);
    }
  }

  // ---------- which tags are equal ----------

  predicate Digits(s: string) {
    forall i :: 0 <= i < |s| ==> '0' <= s[i] <= '9'
  }

  /** Numbers are told apart by at least two digits. */
  lemma TwoDigitsTell(a: nat, b: nat)
    ensures Digits(TwoDigits(a)) && |TwoDigits(a)| >= 2 && (a < 100 ==> |TwoDigits(a)| == 2)
    ensures TwoDigits(a) == TwoDigits(b) ==> a == b
  {
    DecimalStarts(a);
    DecimalStarts(b);
    if TwoDigits(a) == TwoDigits(b) {
      if a < 10 && b < 10 {
        assert TwoDigits(a)[1..] == Decimal(a) && TwoDigits(b)[1..] == Decimal(b);
      }
      DecimalTells(a, b);
    }
  }

  lemma DecimalTells(a: nat, b: nat)
    ensures Decimal(a) == Decimal(b) ==> a == b
  {
    if Decimal(a) == Decimal(b) {
      DecimalInjective(a, b);
    }
  }

  lemma {:induction false} DecimalStarts(n: nat)
    ensures n >= 10 ==> Decimal(n)[0] != '0' && |Decimal(n)| >= 2
    ensures n < 100 ==> |Decimal(n)| <= 2
    ensures 0 < n < 10 ==> Decimal(n)[0] != '0'
    ensures n < 10 ==> |Decimal(n)| == 1
  {
    if n >= 10 {
      DecimalStarts(n / 10);
    }
  }

  /** Behind the last dash stand the digits, so code and number can be told from them. */
  lemma CodeAndNumber(a: string, x: string, b: string, y: string)
    requires Digits(x) && Digits(y) && a + "-" + x == b + "-" + y
    ensures a == b && x == y
  {
    NotLonger(a, x, b, y);
    NotLonger(b, y, a, x);
    var s := a + "-" + x;
    assert s[..|a|] == a && s[|a| + 1..] == x && (b + "-" + y)[..|b|] == b && (b + "-" + y)[|b| + 1..] == y;
  }

  lemma NotLonger(a: string, x: string, b: string, y: string)
    requires Digits(x) && a + "-" + x == b + "-" + y
    ensures |b| <= |a|
  {
    if |a| < |b| {
      DashInDigits(a, x, b, y);
    }
  }

  lemma DashInDigits(a: string, x: string, b: string, y: string)
    requires a + "-" + x == b + "-" + y && |a| < |b|
    ensures |b| - |a| - 1 < |x| && x[|b| - |a| - 1] == '-'
  {
    assert (b + "-" + y)[|b|] == '-';
    assert (a + "-" + x)[|b|] == x[|b| - |a| - 1];
  }

  lemma UnitSlugShort(fold: string -> string, row: Contact)
    ensures |UnitSlug(fold, row)| <= 57
  {
    hide Slug, IsSlug, IsClean;
    ConstantSlugs();
    SlugIsClean(fold, row.group, "GRP", 14);
    SlugIsClean(fold, row.unitName, "UNIDADE", 42);
  }

  /**
   Below a hundred links the length limit never cuts an ONU's tag, so equal tags mean equal unit code and link
   number.
   */
  lemma OnuTagsTell(a: string, m: nat, b: string, n: nat)
    requires |a| <= 57 && |b| <= 57 && m < 100 && n < 100
    ensures OnuTag(a, m) == OnuTag(b, n) <==> a == b && m == n
  {
    TwoDigitsTell(m, n);
    TwoDigitsTell(n, m);
    hide TwoDigits;
    var s, t := "ONU-" + a + "-" + TwoDigits(m), "ONU-" + b + "-" + TwoDigits(n);
    assert |s| <= 64 && |t| <= 64;
    if OnuTag(a, m) == OnuTag(b, n) {
      assert s == t && s[4..] == a + "-" + TwoDigits(m) && t[4..] == b + "-" + TwoDigits(n);
      CodeAndNumber(a, TwoDigits(m), b, TwoDigits(n));
    }
  }

  ghost predicate FewLinks(fold: string -> string, rows: seq<Contact>) {
    forall k :: LinkCount(fold, rows, k) < 100
  }

  lemma FewLinksBefore(fold: string -> string, rows: seq<Contact>)
    requires rows != [] && FewLinks(fold, rows)
    ensures FewLinks(fold, rows[..|rows| - 1])
  {
    hide UnitKey;
    var init := rows[..|rows| - 1];
    forall k ensures LinkCount(fold, init, k) < 100 {
      assert LinkCount(fold, rows, k) < 100;
    }
  }

  /** The ONUs' tags one by one. */
  lemma {:induction false} OnusOneByOne(fold: string -> string, rows: seq<Contact>)
    requires FewLinks(fold, rows)
    ensures |MadeByContacts(fold, rows)| == |Onus(fold, rows)|
    ensures forall i :: 0 <= i < |Onus(fold, rows)| ==>
              var (code, link) := Onus(fold, rows)[i];
              MadeByContacts(fold, rows)[i].tag == OnuTag(code, link) && |code| <= 57 && link < 100
  {
    hide UnitKey, UnitSlug, OnuTag, LinkCount;
    if rows != [] {
      FewLinksBefore(fold, rows);
      OnusOneByOne(fold, rows[..|rows| - 1]);
      UnitSlugShort(fold, rows[|rows| - 1]);
    }
  }

  lemma {:induction false} StarlinksOneByOne(fold: string -> string, g: Gathered, rows: seq<Starlink>)
    ensures |MadeByStarlinks(fold, g, rows)| == |StarlinkSlugs(fold, rows)|
    ensures forall i :: 0 <= i < |StarlinkSlugs(fold, rows)| ==>
              MadeByStarlinks(fold, g, rows)[i].tag == "STARLINK-" + StarlinkSlugs(fold, rows)[i]
  {
    hide StarlinkSlug, StarlinkUnit, Or;
    if rows != [] {
      StarlinksOneByOne(fold, g, rows[..|rows| - 1]);
    }
  }

  lemma OnuTagLead(code: string, link: nat)
    ensures OnuTag(code, link) != "" && OnuTag(code, link)[0] == 'O'
  {
    hide TwoDigits;
  }

  lemma PrefixTells(a: string, b: string)
    ensures "STARLINK-" + a == "STARLINK-" + b <==> a == b
  {
    assert ("STARLINK-" + a)[9..] == a && ("STARLINK-" + b)[9..] == b;
  }

  /** Tags clash only within the ONUs or within the Starlinks. */
  lemma TagsApartIff(onus: seq<LegacyEquipment>, pairs: seq<(string, nat)>, stars: seq<LegacyEquipment>,
                     slugs: seq<string>)
    requires |onus| == |pairs| && |stars| == |slugs|
    requires forall i :: 0 <= i < |pairs| ==>
               onus[i].tag == OnuTag(pairs[i].0, pairs[i].1) && |pairs[i].0| <= 57 && pairs[i].1 < 100
    requires forall i :: 0 <= i < |slugs| ==> stars[i].tag == "STARLINK-" + slugs[i]
    ensures TagsApart(onus + stars) <==> Distinct(pairs) && Distinct(slugs)
  {
    hide OnuTag;
    var all := onus + stars;
    forall i, j | 0 <= i < j < |pairs| ensures onus[i].tag == onus[j].tag <==> pairs[i] == pairs[j] {
      OnuTagsTell(pairs[i].0, pairs[i].1, pairs[j].0, pairs[j].1);
    }
    forall i, j | 0 <= i < j < |slugs| ensures stars[i].tag == stars[j].tag <==> slugs[i] == slugs[j] {
      PrefixTells(slugs[i], slugs[j]);
    }
    forall i, j | 0 <= i < |onus| && 0 <= j < |stars| ensures onus[i].tag != stars[j].tag {
      OnuTagLead(pairs[i].0, pairs[i].1);
    }
    if TagsApart(all) {
      forall i, j | 0 <= i < j < |pairs| ensures pairs[i] != pairs[j] {
        assert all[i] == onus[i] && all[j] == onus[j];
      }
      forall i, j | 0 <= i < j < |slugs| ensures slugs[i] != slugs[j] {
        assert all[|onus| + i] == stars[i] && all[|onus| + j] == stars[j];
      }
    }
  }

  /**
   While no unit has a hundred links, no equipment is lost if and only if no two ONUs have the same unit code
   and link number, and no two Starlinks with a serial number have identifiers of the same slug.
   */
  lemma NothingLostIff(fold: string -> string, contacts: seq<Contact>, partnerRows: seq<PartnerRow>,
                       starlinks: seq<Starlink>)
    requires FewLinks(fold, contacts)
    ensures var made := |Onus(fold, contacts)| + |StarlinkSlugs(fold, starlinks)|;
            && |Exported(fold, contacts, partnerRows, starlinks).equipments| <= made
            && (|Exported(fold, contacts, partnerRows, starlinks).equipments| == made
                <==> Distinct(Onus(fold, contacts)) && Distinct(StarlinkSlugs(fold, starlinks)))
  {
    hide Exported, AfterContacts, AfterPartnerRows, MadeByContacts, MadeByStarlinks, Onus, StarlinkSlugs, TagsApart,
         Distinct, OnuTag, FewLinks, Last;
    EquipmentsAreLast(fold, contacts, partnerRows, starlinks);
    OnusOneByOne(fold, contacts);
    var g := AfterPartnerRows(fold, AfterContacts(fold, EMPTY_GATHERED, contacts), partnerRows);
    StarlinksOneByOne(fold, g, starlinks);
    TagsApartIff(MadeByContacts(fold, contacts), Onus(fold, contacts), MadeByStarlinks(fold, g, starlinks),
                 StarlinkSlugs(fold, starlinks));
  }

  /**
   Two contacts of one group and unit name in different cities are two units of one code, and if both have
   an ONU one of the two is lost: the city is part of a unit's key but not of its code.
   */
  lemma SameNameInTwoCitiesLoses(fold: string -> string, a: Contact, b: Contact)
    requires a.group == b.group && a.unitName == b.unitName && Norm(fold, a.city) != Norm(fold, b.city)
    requires a.macOnu != "" && b.macOnu != ""
    ensures UnitKey(fold, a) != UnitKey(fold, b)
    ensures |Onus(fold, [a, b])| == 2 && |Exported(fold, [a, b], [], []).equipments| == 1
  {
    hide Exported, Norm;
    var key, other := UnitKey(fold, a), UnitKey(fold, b);
    var lead := Norm(fold, a.group) + "::" + Norm(fold, a.unitName) + "::";
    assert key == lead + Norm(fold, a.city) && other == lead + Norm(fold, b.city);
    assert key[|lead|..] == Norm(fold, a.city) && other[|lead|..] == Norm(fold, b.city);
    SlugsAgree(fold, a, b);
    TwoOnus(fold, a, b);
    EquipmentsAreLast(fold, [a, b], [], []);
    var kept := Exported(fold, [a, b], [], []).equipments;
    var made := Made(fold, [a, b], [], []);
    assert made == [OnuOf(fold, a, 1), OnuOf(fold, b, 1)];
    hide *;
    OneOfTwo(kept, made);
  }

  lemma OneOfTwo(kept: seq<LegacyEquipment>, made: seq<LegacyEquipment>)
    requires KeepsLast(kept, made) && |made| == 2 && made[0].tag == made[1].tag
    ensures |kept| == 1
  {
    assert Last(made, 1);
    assert made[1] in kept;
  }

  lemma TwoOnus(fold: string -> string, a: Contact, b: Contact)
    requires a.macOnu != "" && b.macOnu != "" && UnitKey(fold, a) != UnitKey(fold, b)
    ensures Onus(fold, [a, b]) == [(UnitSlug(fold, a), 1), (UnitSlug(fold, b), 1)]
    ensures MadeByContacts(fold, [a, b]) == [OnuOf(fold, a, 1), OnuOf(fold, b, 1)]
  {
    hide UnitKey, UnitSlug, OnuOf;
    var key, other := UnitKey(fold, a), UnitKey(fold, b);
    assert [a, b][..1] == [a] && [a][..0] == [];
    assert LinkCount(fold, [a], key) == 1 && LinkCount(fold, [a], other) == 0;
    assert LinkCount(fold, [a, b], other) == 1;
    assert Onus(fold, [a]) == [(UnitSlug(fold, a), 1)];
    assert MadeByContacts(fold, [a]) == [OnuOf(fold, a, 1)];
  }

  lemma SlugsAgree(fold: string -> string, a: Contact, b: Contact)
    requires a.group == b.group && a.unitName == b.unitName
    ensures UnitSlug(fold, a) == UnitSlug(fold, b)
  {
  }
}
