/**
 The exporter of apps/api/scripts/export-legacy-sqlite.py: three loops that gather partners, units and
 equipments in dictionaries, and the sorted bundle they end in.

 Rows hold the texts left by `clean`, with the city and the Starlink place already split.  Folding to
 ASCII is an arbitrary function `fold`.
 */
module LegacyExport {
  import opened LegacyCodes
  import opened LegacyImport
  import opened Text

  // ---------- slug and norm ----------

  predicate IsAlnum(c: char) {
    'A' <= c <= 'Z' || '0' <= c <= '9'
  }

  predicate NotAlnum(c: char) {
    !IsAlnum(c)
  }

  function StripLeft(s: string): string {
    if s != "" && s[0] == '-' then StripLeft(s[1..]) else s
  }

  function StripRight(s: string): string {
    if s != "" && s[|s| - 1] == '-' then StripRight(s[..|s| - 1]) else s
  }

  function Strip(s: string): string {
    StripRight(StripLeft(s))
  }

  function Cut(s: string, limit: nat): string {
    if |s| <= limit then s else s[..limit]
  }

  function Slug(fold: string -> string, value: string, default: string, limit: nat): string {
    var folded := Upper(fold(Or(value, default)));
    var dashed := DashRuns(Strip(DashRuns(folded, NotAlnum, false)), IsDash, false);
    Strip(Cut(Or(dashed, default), limit))
  }

  function LowerAlnum(s: string): string {
    if s == "" then ""
    else (if 'a' <= s[0] <= 'z' || '0' <= s[0] <= '9' then [s[0]] else "") + LowerAlnum(s[1..])
  }

  function Norm(fold: string -> string, value: string): string {
    LowerAlnum(Lower(fold(value)))
  }

  /** Letters and digits joined by single dashes. */
  predicate IsSlug(s: string) {
    && s != "" && IsAlnum(s[0]) && IsAlnum(s[|s| - 1]) && NoDoubleDash(s)
    && forall i :: 0 <= i < |s| ==> IsAlnum(s[i]) || s[i] == '-'
  }

  /** Every piece of a text that has this has at most single dashes between letters and digits. */
  predicate Dashed(s: string) {
    NoDoubleDash(s) && forall i :: 0 <= i < |s| ==> IsAlnum(s[i]) || s[i] == '-'
  }

  lemma {:induction false} DashRunsDashed(s: string, inRun: bool)
    ensures var t := DashRuns(s, NotAlnum, inRun);
            Dashed(t) && (inRun && t != "" ==> t[0] != '-')
  {
    if s != "" {
      DashRunsDashed(s[1..], NotAlnum(s[0]));
    }
  }

  lemma {:induction false} StripLeftDashed(s: string)
    requires Dashed(s)
    ensures Dashed(StripLeft(s)) && |StripLeft(s)| <= |s| && (StripLeft(s) != "" ==> IsAlnum(StripLeft(s)[0]))
  {
    if s != "" && s[0] == '-' {
      StripLeftDashed(s[1..]);
    }
  }

  lemma {:induction false} StripRightDashed(s: string)
    requires Dashed(s)
    ensures var t := StripRight(s);
            && Dashed(t) && |t| <= |s| && (t != "" ==> t[0] == s[0] && IsAlnum(t[|t| - 1]))
            && (s != "" && IsAlnum(s[0]) ==> t != "")
  {
    if s != "" && s[|s| - 1] == '-' {
      StripRightDashed(s[..|s| - 1]);
    }
  }

  lemma StripDashed(s: string)
    requires Dashed(s)
    ensures var t := Strip(s);
            && (t == "" || IsSlug(t)) && |t| <= |s| && (s != "" && IsAlnum(s[0]) ==> t != "")
  {
    hide StripLeft, StripRight;
    StripLeftDashed(s);
    StripRightDashed(StripLeft(s));
    StripLeftIdle(s);
  }

  lemma StripLeftIdle(s: string)
    ensures s != "" && IsAlnum(s[0]) ==> StripLeft(s) == s
  {
  }

  /** Whatever the value and however the limit cuts it, a slug is a non-empty clean code within the limit. */
  lemma SlugIsClean(fold: string -> string, value: string, default: string, limit: nat)
    requires limit >= 1 && IsSlug(default)
    ensures var s := Slug(fold, value, default, limit);
            IsSlug(s) && IsClean(s) && |s| <= limit
  {
    hide DashRuns, Strip, Upper, Or;
    var folded := Upper(fold(Or(value, default)));
    DashRunsDashed(folded, false);
    var runs := DashRuns(folded, NotAlnum, false);
    StripDashed(runs);
    DashRunsKeeps(Strip(runs), false);
    var chosen := Or(Strip(runs), default);
    assert IsSlug(chosen) by { OrPicks(Strip(runs), default); }
    StripDashed(Cut(chosen, limit));
  }

  lemma OrPicks(a: string, b: string)
    ensures Or(a, b) == if a == "" then b else a
  {
  }

  // ---------- dictionaries in insertion order ----------

  datatype Dict<V> = Dict(keys: seq<string>, at: map<string, V>)

  ghost predicate Valid<V>(d: Dict<V>) {
    && (forall i, j :: 0 <= i < j < |d.keys| ==> d.keys[i] != d.keys[j])
    && (forall k :: k in d.keys <==> k in d.at)
  }

  /** Assigning keeps the place of a key that is already there. */
  function Put<V>(d: Dict<V>, key: string, value: V): Dict<V> {
    Dict(if key in d.at then d.keys else d.keys + [key], d.at[key := value])
  }

  function Values<V>(d: Dict<V>): seq<V>
    requires forall k :: k in d.keys ==> k in d.at
  {
    seq(|d.keys|, i requires 0 <= i < |d.keys| => d.at[d.keys[i]])
  }

  lemma PutValid<V>(d: Dict<V>, key: string, value: V)
    requires Valid(d)
    ensures Valid(Put(d, key, value))
  {
    var t := Put(d, key, value);
    forall k ensures k in t.keys <==> k in t.at {
    }
  }

  /** The sum of a weight over the values, in order. */
  function Total<V>(keys: seq<string>, at: map<string, V>, weight: V -> nat): nat {
    if keys == [] then 0
    else
      var last := keys[|keys| - 1];
      Total(keys[..|keys| - 1], at, weight) + if last in at then weight(at[last]) else 0
  }

  lemma {:induction false} TotalAssign<V>(keys: seq<string>, at: map<string, V>, key: string, value: V,
                                          weight: V -> nat)
    requires (forall i, j :: 0 <= i < j < |keys| ==> keys[i] != keys[j]) && key in at
    ensures Total(keys, at[key := value], weight) + (if key in keys then weight(at[key]) else 0)
         == Total(keys, at, weight) + (if key in keys then weight(value) else 0)
  {
    if keys != [] {
      TotalAssign(keys[..|keys| - 1], at, key, value, weight);
    }
  }

  lemma {:induction false} TotalFresh<V>(keys: seq<string>, at: map<string, V>, key: string, value: V, weight: V -> nat)
    requires key !in keys
    ensures Total(keys, at[key := value], weight) == Total(keys, at, weight)
  {
    if keys != [] {
      TotalFresh(keys[..|keys| - 1], at, key, value, weight);
    }
  }

  function Sum<V>(d: Dict<V>, weight: V -> nat): nat {
    Total(d.keys, d.at, weight)
  }

  /** Assigning trades the old weight of the key for the new one. */
  lemma SumPut<V>(d: Dict<V>, key: string, value: V, weight: V -> nat)
    requires Valid(d)
    ensures Sum(Put(d, key, value), weight) + (if key in d.at then weight(d.at[key]) else 0) == Sum(d,
        weight) + weight(value)
  {
    if key in d.at {
      TotalAssign(d.keys, d.at, key, value, weight);
    } else {
      TotalFresh(d.keys, d.at, key, value, weight);
      assert (d.keys + [key])[..|d.keys|] == d.keys;
    }
  }

  // ---------- the rows and what is gathered ----------

  datatype Contact = Contact(
    id: string, group: string, unitName: string, city: string, state: string, partner: string, backupPartner: string,
    phone: string, contract: string, notes: string, macOnu: string)

  datatype PartnerRow = PartnerRow(id: string, partner: string)

  datatype Starlink = Starlink(
    id: string, antennaId: string, localId: string, localName: string, kitSerial: string, antennaSerial: string)

  datatype PartnerEntry = PartnerEntry(
    code: string, name: string, contactIds: seq<string>, contacts: seq<string>, primaryUnits: nat, backupUnits: nat)

  datatype UnitEntry = UnitEntry(
    row: LegacyUnit, contactIds: seq<string>, links: nat, backupLinks: nat,
    phones: seq<string>, contracts: seq<string>, notes: seq<string>)

  /** The dictionaries of the exporter while it reads. */
  datatype Gathered = Gathered(
    partners: Dict<PartnerEntry>, units: Dict<UnitEntry>, equipments: Dict<LegacyEquipment>,
    unitByContactId: map<string, string>, unitByNormName: map<string, string>)

  const EMPTY_GATHERED := Gathered(Dict([], map[]), Dict([], map[]), Dict([], map[]), map[], map[])

  function PartnerSlug(fold: string -> string, name: string): string {
    Slug(fold, name, "SEM-PARCEIRO", 32)
  }

  function AddPartner(fold: string -> string, partners: Dict<PartnerEntry>, name: string): (after: Dict<PartnerEntry>)
    ensures PartnerSlug(fold, name) in after.at
  {
    var code := PartnerSlug(fold, name);
    if code in partners.at then partners else Put(partners, code, PartnerEntry(code, Or(name, code), [], [], 0, 0))
  }

  function UnitSlug(fold: string -> string, row: Contact): string {
    Slug(fold, row.group, "GRP", 14) + "-" + Slug(fold, row.unitName, "UNIDADE", 42)
  }

  function UnitKey(fold: string -> string, row: Contact): string {
    Norm(fold, row.group) + "::" + Norm(fold, row.unitName) + "::" + Norm(fold, row.city)
  }

  function AddText(texts: seq<string>, text: string): seq<string> {
    if text != "" && text !in texts then texts + [text] else texts
  }

  /** The unit of a contact as it is after the contact: created if missing, with one more link. */
  function UnitAfter(fold: string -> string, units: Dict<UnitEntry>, row: Contact): UnitEntry {
    var key := UnitKey(fold, row);
    var unit := if key in units.at then units.at[key]
                else UnitEntry(LegacyUnit(key, UnitSlug(fold, row), row.unitName, row.group, row.city, row.state,
                                          PartnerSlug(fold, Or(row.partner, "Sem parceiro"))),
                               [], 0, 0, [], [], []);
    unit.(contactIds := unit.contactIds + [row.id], links := unit.links + 1,
          backupLinks := unit.backupLinks + if row.backupPartner != "" then 1 else 0,
          phones := AddText(unit.phones, row.phone), contracts := AddText(unit.contracts, row.contract),
          notes := AddText(unit.notes, row.notes))
  }

  function TwoDigits(n: nat): string {
    if n < 10 then "0" + Decimal(n) else Decimal(n)
  }

  function OnuTag(unitCode: string, link: nat): string {
    Cut("ONU-" + unitCode + "-" + TwoDigits(link), 64)
  }

  function WithOnu(fold: string -> string, equipments: Dict<LegacyEquipment>, row: Contact,
                   link: nat): Dict<LegacyEquipment> {
    if row.macOnu == "" then equipments
    else
      var tag := OnuTag(UnitSlug(fold, row), link);
      Put(equipments, tag,
          LegacyEquipment(tag, "ONU " + row.unitName, "onu", row.macOnu, "active", UnitKey(fold, row),
                          UnitSlug(fold, row), "contatos.mac_onu", row.id))
  }

  /** The partners after a contact: its main partner counts one more unit, its backup partner one more backup. */
  function PartnersAfter(fold: string -> string, partners: Dict<PartnerEntry>, row: Contact): Dict<PartnerEntry> {
    var name := Or(row.partner, "Sem parceiro");
    var added := AddPartner(fold, partners, name);
    var main := added.at[PartnerSlug(fold, name)];
    var counted := Put(added, PartnerSlug(fold, name),
                       main.(primaryUnits := main.primaryUnits + 1, contactIds := main.contactIds + [row.id]));
    if row.backupPartner == "" then counted
    else
      var withBackup := AddPartner(fold, counted, row.backupPartner);
      var backup := withBackup.at[PartnerSlug(fold, row.backupPartner)];
      Put(withBackup, PartnerSlug(fold, row.backupPartner), backup.(backupUnits := backup.backupUnits + 1))
  }

  function ContactStep(fold: string -> string, g: Gathered, row: Contact): Gathered {
    var unit := UnitAfter(fold, g.units, row);
    Gathered(
      PartnersAfter(fold, g.partners, row), Put(g.units, UnitKey(fold, row), unit),
          WithOnu(fold, g.equipments, row, unit.links),
      g.unitByContactId[row.id := UnitKey(fold, row)], g.unitByNormName[Norm(fold, row.unitName) := UnitKey(fold, row)])
  }

  function PartnerRowStep(fold: string -> string, g: Gathered, row: PartnerRow): Gathered {
    var name := Or(row.partner, "Sem parceiro");
    var added := AddPartner(fold, g.partners, name);
    var entry := added.at[PartnerSlug(fold, name)];
    g.(partners := Put(added, PartnerSlug(fold, name), entry.(contacts := entry.contacts + [row.id])))
  }

  /** The unit a Starlink stands at: by contact, else by name, else nowhere. */
  function StarlinkUnit(fold: string -> string, g: Gathered, row: Starlink): string {
    if row.localId in g.unitByContactId && g.unitByContactId[row.localId] != "" then g.unitByContactId[row.localId]
    else if Norm(fold, row.localName) in g.unitByNormName then g.unitByNormName[Norm(fold, row.localName)]
    else ""
  }

  function StarlinkTag(fold: string -> string, row: Starlink): string {
    "STARLINK-" + Slug(fold, Or(row.antennaId, row.id), "SEM-ID", 24)
  }

  function StarlinkStep(fold: string -> string, g: Gathered, row: Starlink): Gathered {
    var key, tag, serial := StarlinkUnit(fold, g, row), StarlinkTag(fold, row), Or(row.kitSerial, row.antennaSerial);
    if serial == "" then g
    else
      g.(equipments :=
           Put(g.equipments, tag,
               LegacyEquipment(tag, "Starlink " + Or(row.localName, Or(row.antennaId, row.id)), "starlink", serial,
                               if key != "" then "active" else "stock", key,
                               if key in g.units.at then g.units.at[key].row.code else "", "starlinks", row.id)))
  }

  function AfterContacts(fold: string -> string, g: Gathered, rows: seq<Contact>): Gathered
    decreases |rows|
  {
    if rows == [] then g else AfterContacts(fold, ContactStep(fold, g, rows[0]), rows[1..])
  }

  function AfterPartnerRows(fold: string -> string, g: Gathered, rows: seq<PartnerRow>): Gathered
    decreases |rows|
  {
    if rows == [] then g else AfterPartnerRows(fold, PartnerRowStep(fold, g, rows[0]), rows[1..])
  }

  function AfterStarlinks(fold: string -> string, g: Gathered, rows: seq<Starlink>): Gathered
    decreases |rows|
  {
    if rows == [] then g else AfterStarlinks(fold, StarlinkStep(fold, g, rows[0]), rows[1..])
  }

  function Gather(fold: string -> string, contacts: seq<Contact>, partnerRows: seq<PartnerRow>,
                  starlinks: seq<Starlink>): Gathered {
    AfterStarlinks(fold, AfterPartnerRows(fold, AfterContacts(fold, EMPTY_GATHERED, contacts), partnerRows), starlinks)
  }

  // ---------- the sorted bundle ----------

  predicate AtMost(a: string, b: string) {
    a == "" || (b != "" && (a[0] < b[0] || (a[0] == b[0] && AtMost(a[1..], b[1..]))))
  }

  function InsertByText<T>(x: T, sorted: seq<T>, key: T -> string): seq<T> {
    if sorted == [] || AtMost(key(x), key(sorted[0])) then [x] + sorted
    else [sorted[0]] + InsertByText(x, sorted[1..], key)
  }

  /** Stable sort by rising text. */
  function SortByText<T>(s: seq<T>, key: T -> string): seq<T> {
    if s == [] then [] else InsertByText(s[0], SortByText(s[1..], key), key)
  }

  lemma {:induction false} InsertKeepsBag<T>(x: T, sorted: seq<T>, key: T -> string)
    ensures multiset(InsertByText(x, sorted, key)) == multiset{x} + multiset(sorted)
  {
    hide AtMost;
    if sorted != [] {
      InsertKeepsBag(x, sorted[1..], key);
      assert sorted == [sorted[0]] + sorted[1..];
    }
  }

  lemma {:induction false} SortKeepsBag<T>(s: seq<T>, key: T -> string)
    ensures multiset(SortByText(s, key)) == multiset(s) && |SortByText(s, key)| == |s|
    ensures forall x :: x in SortByText(s, key) <==> x in s
  {
    if s != [] {
      SortKeepsBag(s[1..], key);
      InsertKeepsBag(s[0], SortByText(s[1..], key), key);
      assert s == [s[0]] + s[1..];
    }
    assert |multiset(SortByText(s, key))| == |SortByText(s, key)|;
    assert forall x :: x in SortByText(s, key) <==> x in multiset(SortByText(s, key));
  }

  lemma {:induction false} AtMostTotal(a: string, b: string)
    ensures AtMost(a, b) || AtMost(b, a)
    ensures AtMost(a, b) && AtMost(b, a) ==> a == b
  {
    if a != "" && b != "" {
      AtMostTotal(a[1..], b[1..]);
      assert a == [a[0]] + a[1..] && b == [b[0]] + b[1..];
    }
  }

  lemma {:induction false} AtMostTrans(a: string, b: string, c: string)
    requires AtMost(a, b) && AtMost(b, c)
    ensures AtMost(a, c)
  {
    if a != "" && a[0] == b[0] == c[0] {
      AtMostTrans(a[1..], b[1..], c[1..]);
    }
  }

  ghost predicate Rising<T>(s: seq<T>, key: T -> string) {
    forall i, j :: 0 <= i < j < |s| ==> AtMost(key(s[i]), key(s[j]))
  }

  lemma {:induction false} InsertRises<T>(x: T, sorted: seq<T>, key: T -> string)
    requires Rising(sorted, key)
    ensures Rising(InsertByText(x, sorted, key), key)
  {
    hide AtMost;
    if sorted != [] {
      var head, rest := sorted[0], sorted[1..];
      AtMostTotal(key(x), key(head));
      if AtMost(key(x), key(head)) {
        forall j | 0 <= j < |sorted| ensures AtMost(key(x), key(sorted[j])) {
          if j > 0 {
            AtMostTrans(key(x), key(head), key(sorted[j]));
          }
        }
      } else {
        InsertRises(x, rest, key);
        InsertKeepsBag(x, rest, key);
        var tail := InsertByText(x, rest, key);
        forall j | 0 <= j < |tail| ensures AtMost(key(head), key(tail[j])) {
          assert tail[j] in multiset(tail);
          assert tail[j] == x || tail[j] in rest;
        }
      }
    }
  }

  /** The lists of a bundle rise by code or tag. */
  lemma {:induction false} SortRises<T>(s: seq<T>, key: T -> string)
    ensures Rising(SortByText(s, key), key)
  {
    hide Rising;
    if s == [] {
      NothingRises(s, key);
    } else {
      SortRises(s[1..], key);
      InsertRises(s[0], SortByText(s[1..], key), key);
    }
  }

  lemma NothingRises<T>(s: seq<T>, key: T -> string)
    requires s == []
    ensures Rising(s, key)
  {
  }

  function ToPartner(p: PartnerEntry): LegacyPartner {
    LegacyPartner(p.code, p.name, p.contactIds)
  }

  function PartnerText(p: PartnerEntry): string { p.code }

  function UnitText(u: UnitEntry): string { u.row.code }

  function EquipmentText(e: LegacyEquipment): string { e.tag }

  function ToBundle(g: Gathered): Bundle
    requires Valid(g.partners) && Valid(g.units) && Valid(g.equipments)
  {
    var partners := SortByText(Values(g.partners), PartnerText);
    var units := SortByText(Values(g.units), UnitText);
    Bundle(seq(|partners|, i requires 0 <= i < |partners| => ToPartner(partners[i])),
           seq(|units|, i requires 0 <= i < |units| => units[i].row),
           SortByText(Values(g.equipments), EquipmentText))
  }
}
