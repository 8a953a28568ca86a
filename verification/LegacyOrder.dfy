/**
 The order of the lists of a bundle: by code or tag, and units of one code by their first contacts, in which order
 the importer hands out codes.
 */
module LegacyOrder {
  import opened LegacyBundle
  import opened LegacyCodes
  import opened LegacyContents
  import opened LegacyExport
  import opened LegacyImport
  import opened LegacyTags
  import opened Text

  // ---------- the sort is stable ----------

  /** The first position comes first: its text is smaller, or the same and it stands earlier. */
  ghost predicate Before<T>(s: seq<T>, key: T -> string, i: nat, j: nat) {
    && i < |s| && j < |s| && AtMost(key(s[i]), key(s[j])) && (key(s[i]) == key(s[j]) ==> i < j)
  }

  ghost predicate InTurn<T>(s: seq<T>, key: T -> string, order: seq<nat>) {
    forall j, k :: 0 <= j < k < |order| ==> Before(s, key, order[j], order[k])
  }

  ghost predicate Picked<T>(s: seq<T>, order: seq<nat>, picked: seq<T>) {
    |picked| == |order| && forall k :: 0 <= k < |order| ==> order[k] < |s| && picked[k] == s[order[k]]
  }

  lemma {:induction false} SortOrder<T>(s: seq<T>, key: T -> string, from: nat) returns (order: seq<nat>)
    requires from <= |s|
    ensures InTurn(s, key, order) && Picked(s, order, SortByText(s[from..], key))
    ensures forall k :: 0 <= k < |order| ==> from <= order[k]
    decreases |s| - from
  {
    order := [];
    if from < |s| {
      var rest := SortOrder(s, key, from + 1);
      assert s[from..][1..] == s[from + 1..] && s[from..][0] == s[from];
      hide SortByText, AtMost, InTurn;
      order := InsertOrder(s, key, from, rest, SortByText(s[from + 1..], key));
      SortNext(s, key, from);
    }
  }

  lemma SortNext<T>(s: seq<T>, key: T -> string, from: nat)
    requires from < |s|
    ensures SortByText(s[from..], key) == InsertByText(s[from], SortByText(s[from + 1..], key), key)
  {
    hide InsertByText;
    assert s[from..][1..] == s[from + 1..] && s[from..][0] == s[from];
  }

  lemma {:induction false} InsertOrder<T>(s: seq<T>, key: T -> string, from: nat, rest: seq<nat>, sorted: seq<T>)
    returns (order: seq<nat>)
    requires from < |s| && InTurn(s, key, rest) && Picked(s, rest, sorted)
    requires forall k :: 0 <= k < |rest| ==> from < rest[k]
    ensures InTurn(s, key, order) && Picked(s, order, InsertByText(s[from], sorted, key))
    ensures forall k :: 0 <= k < |order| ==> order[k] == from || order[k] in rest
    decreases |rest|
  {
    hide AtMost;
    if sorted == [] || AtMost(key(s[from]), key(sorted[0])) {
      order := [from] + rest;
      PutFirst(s, key, from, rest);
    } else {
      AtMostTotal(key(s[from]), key(sorted[0]));
      var others := InsertOrder(s, key, from, rest[1..], sorted[1..]);
      order := [rest[0]] + others;
      assert rest == [rest[0]] + rest[1..];
      assert Before(s, key, rest[0], from) by { AtMostSame(key(sorted[0])); }
      PutLater(s, key, from, rest, others);
    }
  }

  lemma {:induction false} AtMostSame(a: string)
    ensures AtMost(a, a)
  {
    if a != "" {
      AtMostSame(a[1..]);
    }
  }

  lemma PutFirst<T>(s: seq<T>, key: T -> string, from: nat, rest: seq<nat>)
    requires from < |s| && InTurn(s, key, rest) && forall k :: 0 <= k < |rest| ==> from < rest[k] < |s|
    requires rest != [] ==> AtMost(key(s[from]), key(s[rest[0]]))
    ensures InTurn(s, key, [from] + rest)
  {
    hide AtMost;
    var order := [from] + rest;
    forall j, k | 0 <= j < k < |order| ensures Before(s, key, order[j], order[k]) {
      if j == 0 && k > 1 {
        assert Before(s, key, rest[0], rest[k - 1]);
        AtMostTrans(key(s[from]), key(s[rest[0]]), key(s[rest[k - 1]]));
      }
    }
  }

  lemma PutLater<T>(s: seq<T>, key: T -> string, from: nat, rest: seq<nat>, others: seq<nat>)
    requires InTurn(s, key, rest) && rest != [] && InTurn(s, key, others) && Before(s, key, rest[0], from)
    requires forall k :: 0 <= k < |others| ==> others[k] == from || others[k] in rest[1..]
    ensures InTurn(s, key, [rest[0]] + others)
  {
    hide Before;
    var order := [rest[0]] + others;
    forall j, k | 0 <= j < k < |order| ensures Before(s, key, order[j], order[k]) {
      if j == 0 && others[k - 1] != from {
        var m :| 0 <= m < |rest[1..]| && rest[1..][m] == others[k - 1];
        assert Before(s, key, rest[0], rest[m + 1]);
      }
    }
  }

  // ---------- units are entered in the order of their first contacts ----------

  /** The first unit's first contact comes before the second's. */
  ghost predicate EarlierUnit(fold: string -> string, contacts: seq<Contact>, a: string, b: string) {
    forall c: nat, e: nat :: FirstOfUnit(fold, contacts, a, c) && FirstOfUnit(fold, contacts, b, e) ==> c < e
  }

  /** Keys stand in the order of their first contacts. */
  ghost predicate KeysInTurn(fold: string -> string, contacts: seq<Contact>, keys: seq<string>) {
    forall i, j :: 0 <= i < j < |keys| ==> EarlierUnit(fold, contacts, keys[i], keys[j])
  }

  ghost predicate KeysNamed(fold: string -> string, contacts: seq<Contact>, keys: seq<string>) {
    forall key :: key in keys <==> !NoneOfUnit(fold, contacts, key)
  }

  lemma NextKey(fold: string -> string, contacts: seq<Contact>, row: Contact, keys: seq<string>)
    requires KeysInTurn(fold, contacts, keys) && KeysNamed(fold, contacts, keys)
    ensures var key := UnitKey(fold, row);
            var after := if key in keys then keys else keys + [key];
            KeysInTurn(fold, contacts + [row], after) && KeysNamed(fold, contacts + [row], after)
  {
    hide UnitKey;
    var key, all := UnitKey(fold, row), contacts + [row];
    var after := if key in keys then keys else keys + [key];
    assert forall c :: 0 <= c < |contacts| ==> all[c] == contacts[c];
    forall k ensures k in after <==> !NoneOfUnit(fold, all, k) {
      assert k in keys <==> !NoneOfUnit(fold, contacts, k);
      if j :| 0 <= j < |contacts| && UnitKey(fold, contacts[j]) == k {
        assert UnitKey(fold, all[j]) == k;
      }
      assert UnitKey(fold, all[|contacts|]) == key;
    }
    forall k, c: nat | FirstOfUnit(fold, all, k, c) && k in keys ensures FirstOfUnit(fold, contacts, k, c) {
      assert !NoneOfUnit(fold, contacts, k);
      var j :| 0 <= j < |contacts| && UnitKey(fold, contacts[j]) == k;
      assert UnitKey(fold, all[j]) == k;
    }
    if key !in keys {
      assert NoneOfUnit(fold, contacts, key);
      forall c: nat | FirstOfUnit(fold, all, key, c) ensures c == |contacts| {
        assert forall j :: 0 <= j < |contacts| ==> UnitKey(fold, all[j]) != key;
      }
    }
    hide NoneOfUnit;
    forall i, j | 0 <= i < j < |after| ensures EarlierUnit(fold, all, after[i], after[j]) {
      forall c: nat, e: nat | FirstOfUnit(fold, all, after[i], c) && FirstOfUnit(fold, all, after[j], e) ensures c < e {
        assert FirstOfUnit(fold, contacts, keys[i], c);
        if j < |keys| {
          assert EarlierUnit(fold, contacts, keys[i], keys[j]) && FirstOfUnit(fold, contacts, keys[j], e);
        }
      }
    }
  }

  lemma {:induction false} UnitsInTurn(fold: string -> string, contacts: seq<Contact>)
    ensures var keys := AfterContacts(fold, EMPTY_GATHERED, contacts).units.keys;
            KeysInTurn(fold, contacts, keys) && KeysNamed(fold, contacts, keys)
            && Valid(AfterContacts(fold, EMPTY_GATHERED, contacts).units)
  {
    hide KeysInTurn, KeysNamed, UnitKey, UnitAfter, PartnersAfter, WithOnu, Norm, Valid;
    if contacts == [] {
      NoKeys(fold);
    } else {
      var init, row := contacts[..|contacts| - 1], contacts[|contacts| - 1];
      assert contacts == init + [row];
      ContactsSnoc(fold, EMPTY_GATHERED, contacts);
      UnitsInTurn(fold, init);
      var units := AfterContacts(fold, EMPTY_GATHERED, init).units;
      PutValid(units, UnitKey(fold, row), UnitAfter(fold, units, row));
      NextKey(fold, init, row, units.keys);
      KeyIsThere(units, UnitKey(fold, row));
    }
  }

  lemma KeyIsThere<V>(d: Dict<V>, key: string)
    requires Valid(d)
    ensures key in d.keys <==> key in d.at
  {
  }

  lemma NoKeys(fold: string -> string)
    ensures KeysInTurn(fold, [], EMPTY_GATHERED.units.keys) && KeysNamed(fold, [], EMPTY_GATHERED.units.keys)
    ensures Valid(EMPTY_GATHERED.units)
  {
  }

  lemma GatheredInTurn(fold: string -> string, contacts: seq<Contact>, partnerRows: seq<PartnerRow>,
                       starlinks: seq<Starlink>)
    ensures KeysInTurn(fold, contacts, Gather(fold, contacts, partnerRows, starlinks).units.keys)
  {
    hide AfterContacts, AfterPartnerRows, AfterStarlinks, KeysInTurn, Keeps, MadeByContacts;
    var withContacts := AfterContacts(fold, EMPTY_GATHERED, contacts);
    UnitsInTurn(fold, contacts);
    ContactsMake(fold, contacts);
    PartnerRowsKeepKnown(fold, withContacts, partnerRows);
    PartnerRowsKeepEquipments(fold, withContacts, partnerRows);
    StarlinksMake(fold, AfterPartnerRows(fold, withContacts, partnerRows), MadeByContacts(fold, contacts), starlinks);
  }

  // ---------- the lists of a bundle ----------

  /** Of two units the first has the smaller code, or the same one and the earlier first contact. */
  ghost predicate UnitsInOrder(fold: string -> string, contacts: seq<Contact>, units: seq<LegacyUnit>) {
    forall i, j :: 0 <= i < j < |units| ==>
      && AtMost(units[i].code, units[j].code)
      && (units[i].code == units[j].code ==> EarlierUnit(fold, contacts, units[i].key, units[j].key))
  }

  lemma UnitsOrdered(fold: string -> string, contacts: seq<Contact>, d: Dict<UnitEntry>)
    requires Valid(d) && KeysInTurn(fold, contacts, d.keys) && forall k :: k in d.at ==> d.at[k].row.key == k
    ensures var sorted := SortByText(Values(d), UnitText);
            UnitsInOrder(fold, contacts, seq(|sorted|, i requires 0 <= i < |sorted| => sorted[i].row))
  {
    hide SortByText, AtMost, FirstOfUnit;
    var values := Values(d);
    var order := SortOrder(values, UnitText, 0);
    assert values[0..] == values;
    var sorted := SortByText(values, UnitText);
    var units := seq(|sorted|, i requires 0 <= i < |sorted| => sorted[i].row);
    forall i, j | 0 <= i < j < |units|
      ensures AtMost(units[i].code, units[j].code)
      ensures units[i].code == units[j].code ==> EarlierUnit(fold, contacts, units[i].key, units[j].key)
    {
      assert Before(values, UnitText, order[i], order[j]);
      assert units[i].key == d.keys[order[i]] && units[j].key == d.keys[order[j]];
    }
  }

  lemma KeysMatch(g: Gathered)
    requires Fits(g)
    ensures Valid(g.units) && forall k :: k in g.units.at ==> g.units.at[k].row.key == k
  {
    hide PartnersFit, EquipmentsFit, KeysFit, IsClean;
  }

  /** The lists of a bundle rise by code or tag, units of one code in the order of their first contacts. */
  lemma ListsRise(fold: string -> string, contacts: seq<Contact>, partnerRows: seq<PartnerRow>,
                  starlinks: seq<Starlink>)
    ensures var b := Exported(fold, contacts, partnerRows, starlinks);
            && (forall i, j :: 0 <= i < j < |b.partners| ==> AtMost(b.partners[i].code, b.partners[j].code))
            && UnitsInOrder(fold, contacts, b.units)
            && (forall i, j :: 0 <= i < j < |b.equipments| ==> AtMost(b.equipments[i].tag, b.equipments[j].tag))
  {
    var g := Gather(fold, contacts, partnerRows, starlinks);
    GatherFits(fold, contacts, partnerRows, starlinks);
    KeysMatch(g);
    FitsValid(g);
    GatheredInTurn(fold, contacts, partnerRows, starlinks);
    hide Gather, Fits, SortByText, AtMost, KeysInTurn, Valid, UnitsInOrder;
    UnitsOrdered(fold, contacts, g.units);
    SortRises(Values(g.partners), PartnerText);
    SortRises(Values(g.equipments), EquipmentText);
    ListsAre(fold, contacts, partnerRows, starlinks);
  }

  lemma ListsAre(fold: string -> string, contacts: seq<Contact>, partnerRows: seq<PartnerRow>,
                 starlinks: seq<Starlink>)
    ensures var b := Exported(fold, contacts, partnerRows, starlinks);
            var g := Gather(fold, contacts, partnerRows, starlinks);
            && Valid(g.partners) && Valid(g.units) && Valid(g.equipments)
            && var partners := SortByText(Values(g.partners), PartnerText);
               var units := SortByText(Values(g.units), UnitText);
            && |b.partners| == |partners|
            && (forall i :: 0 <= i < |partners| ==> b.partners[i].code == partners[i].code)
            && b.units == seq(|units|, i requires 0 <= i < |units| => units[i].row)
            && b.equipments == SortByText(Values(g.equipments), EquipmentText)
  {
    hide Gather, SortByText, Fits, Values;
    GatherFits(fold, contacts, partnerRows, starlinks);
    FitsValid(Gather(fold, contacts, partnerRows, starlinks));
  }
}
