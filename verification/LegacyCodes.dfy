/**
 Code normalisation and unit code allocation of apps/api/scripts/import-legacy-catalog.ts.
 */
module LegacyCodes {
  import opened Text

  // ---------- cleanCode ----------

  predicate Allowed(c: char) {
    'A' <= c <= 'Z' || '0' <= c <= '9' || c == '.' || c == '_' || c == '-'
  }

  predicate Foreign(c: char) {
    !Allowed(c)
  }

  predicate IsDash(c: char) {
    c == '-'
  }

  /** Every maximal run of matching characters becomes one dash. */
  function DashRuns(s: string, p: char -> bool, inRun: bool): string {
    if s == "" then ""
    else if p(s[0]) then (if inRun then "" else "-") + DashRuns(s[1..], p, true)
    else [s[0]] + DashRuns(s[1..], p, false)
  }

  /** One dash is dropped at each end. */
  function StripEdges(s: string): string {
    var t := if s != "" && s[0] == '-' then s[1..] else s;
    if t != "" && t[|t| - 1] == '-' then t[..|t| - 1] else t
  }

  function Squeeze(s: string): string {
    DashRuns(DashRuns(DashRuns(Upper(Trim(s)), IsSpace, false), Foreign, false), IsDash, false)
  }

  /** What is left of a text after cleaning; possibly nothing. */
  function Core(s: string): string {
    StripEdges(Squeeze(s))
  }

  function CleanCode(value: string, default: string): string {
    var code := Core(if value != "" then value else default);
    if code != "" then code else default
  }

  predicate AllAllowed(s: string) {
    forall i :: 0 <= i < |s| ==> Allowed(s[i])
  }

  predicate NoDoubleDash(s: string) {
    forall i :: 0 <= i < |s| - 1 ==> !(s[i] == '-' && s[i + 1] == '-')
  }

  /** A non-empty code of allowed characters without doubled or edge dashes. */
  predicate IsClean(s: string) {
    s != "" && AllAllowed(s) && NoDoubleDash(s) && s[0] != '-' && s[|s| - 1] != '-'
  }

  lemma {:induction false} DashRunsAllowed(s: string, inRun: bool)
    ensures AllAllowed(DashRuns(s, Foreign, inRun))
  {
    if s != "" {
      DashRunsAllowed(s[1..], Foreign(s[0]));
    }
  }

  lemma {:induction false} DashRunsSingle(s: string, inRun: bool)
    requires AllAllowed(s)
    ensures var t := DashRuns(s, IsDash, inRun);
            AllAllowed(t) && NoDoubleDash(t) && (inRun && t != "" ==> t[0] != '-')
  {
    if s != "" {
      DashRunsSingle(s[1..], IsDash(s[0]));
    }
  }

  /** Cleaning leaves nothing or a clean code. */
  lemma CoreIsClean(s: string)
    ensures Core(s) == "" || IsClean(Core(s))
  {
    hide DashRuns, Upper, Trim, Foreign, IsDash;
    var foreign := DashRuns(DashRuns(Upper(Trim(s)), IsSpace, false), Foreign, false);
    DashRunsAllowed(DashRuns(Upper(Trim(s)), IsSpace, false), false);
    DashRunsSingle(foreign, false);
  }

  lemma {:induction false} DashRunsNone(s: string, p: char -> bool, inRun: bool)
    requires forall i :: 0 <= i < |s| ==> !p(s[i])
    ensures DashRuns(s, p, inRun) == s
  {
    if s != "" {
      DashRunsNone(s[1..], p, false);
    }
  }

  lemma {:induction false} DashRunsKeeps(s: string, inRun: bool)
    requires NoDoubleDash(s) && (inRun && s != "" ==> s[0] != '-')
    ensures DashRuns(s, IsDash, inRun) == s
  {
    if s != "" {
      DashRunsKeeps(s[1..], IsDash(s[0]));
    }
  }

  /** A clean code is what cleaning leaves of it. */
  lemma CleanIsFixed(s: string)
    requires IsClean(s)
    ensures Core(s) == s
  {
    hide DashRuns, Trim, Upper;
    TrimIdentity(s);
    UpperIdentity(s);
    DashRunsNone(s, IsSpace, false);
    DashRunsNone(s, Foreign, false);
    DashRunsKeeps(s, false);
  }

  /** A code survives cleaning, whatever the fallback, exactly when it is clean. */
  lemma CleanCodeFixedIff(s: string)
    requires s != ""
    ensures (forall default :: CleanCode(s, default) == s) <==> IsClean(s)
  {
    hide Core, IsClean;
    CoreIsClean(s);
    if IsClean(s) {
      CleanIsFixed(s);
    } else {
      assert CleanCode(s, "") == s ==> IsClean(s);
    }
  }

  /** Cleaning twice is cleaning once whenever the first cleaning left something. */
  lemma CleanCodeIdempotent(value: string, default: string, again: string)
    requires Core(if value != "" then value else default) != ""
    ensures IsClean(CleanCode(value, default))
    ensures CleanCode(CleanCode(value, default), again) == CleanCode(value, default)
  {
    hide Core;
    CoreIsClean(if value != "" then value else default);
    CleanIsFixed(CleanCode(value, default));
  }

  /** When cleaning leaves nothing the fallback is returned as it is, clean or not. */
  lemma RawFallback()
    ensures Core("--") == "" && CleanCode("--", "LEGACY-UNIT-a::b") == "LEGACY-UNIT-a::b"
    ensures !IsClean("LEGACY-UNIT-a::b")
  {
    assert !IsSpace('-') && Allowed('-');
    DashRunsNone("--", IsSpace, false);
    DashRunsNone("--", Foreign, false);
    TrimIdentity("--");
    UpperIdentity("--");
    assert "--"[1..] == "-" && "-"[1..] == "";
    assert DashRuns("--", IsDash, false) == "-";
    assert "LEGACY-UNIT-a::b"[12] == 'a';
  }

  lemma CleanConcat(a: string, b: string)
    requires IsClean(a) && IsClean(b)
    ensures IsClean(a + "-" + b)
  {
  }

  lemma DecimalIsClean(n: nat)
    ensures IsClean(Decimal(n))
  {
    var d := Decimal(n);
    forall i | 0 <= i < |d| ensures Allowed(d[i]) && d[i] != '-' {
    }
  }

  // ---------- the unit code map ----------

  datatype LegacyUnit = LegacyUnit(
    key: string, code: string, name: string, group: string, city: string, state: string, partnerCode: string)

  function BaseOf(u: LegacyUnit): string {
    CleanCode(u.code, "LEGACY-UNIT-" + u.key)
  }

  function SuffixOf(u: LegacyUnit): string {
    CleanCode(Or(u.city, Or(u.group, u.key)), "ITEM")
  }

  function BaseCount(units: seq<LegacyUnit>, base: string): nat {
    if units == [] then 0 else (if BaseOf(units[0]) == base then 1 else 0) + BaseCount(units[1..], base)
  }

  function RootOf(u: LegacyUnit, all: seq<LegacyUnit>): string {
    if BaseCount(all, BaseOf(u)) > 1 then BaseOf(u) + "-" + SuffixOf(u) else BaseOf(u)
  }

  /** The candidates in the order in which they are tried: the root, then root-2, root-3 and so on. */
  function Candidate(root: string, k: nat): string {
    if k < 2 then root else root + "-" + Decimal(k)
  }

  lemma CandidateInjective(root: string, j: nat, k: nat)
    requires 1 <= j && 1 <= k && Candidate(root, j) == Candidate(root, k)
    ensures j == k
  {
    var a, b := Candidate(root, j), Candidate(root, k);
    if j >= 2 && k >= 2 {
      assert a[|root| + 1..] == Decimal(j) && b[|root| + 1..] == Decimal(k);
      DecimalInjective(j, k);
    } else {
      assert |a| == |b|;
    }
  }

  function Tried(root: string, k: nat): set<string> {
    set j: nat | 1 <= j < k :: Candidate(root, j)
  }

  lemma TriedShrinks(root: string, used: set<string>, k: nat)
    requires k >= 1 && Candidate(root, k) in used
    ensures used - Tried(root, k + 1) < used - Tried(root, k)
  {
    var c := Candidate(root, k);
    if c in Tried(root, k) {
      var j: nat :| 1 <= j < k && Candidate(root, j) == c;
      CandidateInjective(root, j, k);
    }
    assert c in Tried(root, k + 1);
    assert Tried(root, k) <= Tried(root, k + 1);
    assert c in used - Tried(root, k);
    assert c !in used - Tried(root, k + 1);
  }

  ghost predicate IsCandidate(code: string, root: string) {
    exists n: nat :: n >= 1 && code == Candidate(root, n)
  }

  /** The first candidate from number k on that is not used. */
  function FirstFree(root: string, used: set<string>, k: nat): (code: string)
    requires k >= 1
    ensures code !in used && IsCandidate(code, root)
    decreases used - Tried(root, k)
  {
    if Candidate(root, k) !in used then Candidate(root, k)
    else
      TriedShrinks(root, used, k);
      FirstFree(root, used, k + 1)
  }

  /** The codes of the units, in order, given the codes already used. */
  function Codes(units: seq<LegacyUnit>, all: seq<LegacyUnit>, used: set<string>): seq<string> {
    if units == [] then []
    else
      var code := FirstFree(RootOf(units[0], all), used, 1);
      [code] + Codes(units[1..], all, used + {code})
  }

  /** A `Map` filled in order: a repeated key keeps its last value. */
  function CodeMap(units: seq<LegacyUnit>, codes: seq<string>): map<string, string>
    requires |units| == |codes|
  {
    if units == [] then map[]
    else
      var last := |units| - 1;
      CodeMap(units[..last], codes[..last])[units[last].key := codes[last]]
  }

  lemma {:induction false} CodesSound(units: seq<LegacyUnit>, all: seq<LegacyUnit>, used: set<string>)
    ensures var codes := Codes(units, all, used);
            && |codes| == |units|
            && (forall i :: 0 <= i < |codes| ==> codes[i] !in used)
            && (forall i, j :: 0 <= i < j < |codes| ==> codes[i] != codes[j])
            && forall i :: 0 <= i < |codes| ==> IsCandidate(codes[i], RootOf(units[i], all))
    decreases |units|
  {
    hide RootOf, IsCandidate;
    if units != [] {
      var code := FirstFree(RootOf(units[0], all), used, 1);
      CodesSound(units[1..], all, used + {code});
      var rest := Codes(units[1..], all, used + {code});
      forall j | 0 <= j < |rest| ensures rest[j] != code && rest[j] !in used {
        assert rest[j] !in used + {code};
      }
      var codes := Codes(units, all, used);
      forall i | 0 <= i < |codes| ensures IsCandidate(codes[i], RootOf(units[i], all)) {
        if i > 0 {
          assert codes[i] == rest[i - 1] && units[i] == units[1..][i - 1];
        }
      }
    }
  }

  ghost predicate DistinctUnitKeys(units: seq<LegacyUnit>) {
    forall i, j :: 0 <= i < j < |units| ==> units[i].key != units[j].key
  }

  lemma {:induction false} CodeMapAt(units: seq<LegacyUnit>, codes: seq<string>)
    requires |units| == |codes| && DistinctUnitKeys(units)
    ensures forall i :: 0 <= i < |units| ==>
        units[i].key in CodeMap(units, codes) && CodeMap(units, codes)[units[i].key] == codes[i]
  {
    if units != [] {
      CodeMapAt(units[..|units| - 1], codes[..|units| - 1]);
    }
  }

  lemma {:induction false} CodeMapKeys(units: seq<LegacyUnit>, codes: seq<string>)
    requires |units| == |codes|
    ensures forall i :: 0 <= i < |units| ==> units[i].key in CodeMap(units, codes)
    ensures forall key :: key in CodeMap(units, codes) ==> CodeMap(units, codes)[key] in codes
  {
    if units != [] {
      CodeMapKeys(units[..|units| - 1], codes[..|units| - 1]);
    }
  }

  /** `buildLegacyUnitCodeMap` as a function of the bundle's units. */
  function UnitCodes(units: seq<LegacyUnit>): map<string, string> {
    CodesSound(units, units, {});
    CodeMap(units, Codes(units, units, {}))
  }

  lemma UnitCodesIs(units: seq<LegacyUnit>)
    ensures |Codes(units, units, {})| == |units| && UnitCodes(units) == CodeMap(units, Codes(units, units, {}))
  {
    hide RootOf, IsCandidate, CodeMap;
    CodesSound(units, units, {});
  }

  /** Distinct unit keys get distinct codes, and every code extends the base of its unit. */
  lemma UnitCodesDistinct(units: seq<LegacyUnit>, i: nat, j: nat)
    requires DistinctUnitKeys(units) && i < |units| && j < |units|
    ensures units[i].key in UnitCodes(units) && units[j].key in UnitCodes(units)
    ensures UnitCodes(units)[units[i].key] == UnitCodes(units)[units[j].key] ==> i == j
    ensures BaseOf(units[i]) <= UnitCodes(units)[units[i].key]
  {
    hide BaseOf, SuffixOf, BaseCount;
    CodesSound(units, units, {});
    CodeMapAt(units, Codes(units, units, {}));
    assert IsCandidate(UnitCodes(units)[units[i].key], RootOf(units[i], units));
  }

  /** Codes built from a clean base are clean, so cleaning them again finds them. */
  lemma UnitCodesClean(units: seq<LegacyUnit>, key: string)
    requires key in UnitCodes(units) && forall i :: 0 <= i < |units| ==> IsClean(BaseOf(units[i]))
    ensures IsClean(UnitCodes(units)[key])
  {
    hide IsClean, BaseOf, SuffixOf, BaseCount;
    var codes := Codes(units, units, {});
    CodesSound(units, units, {});
    CodeMapKeys(units, codes);
    var i :| 0 <= i < |codes| && codes[i] == UnitCodes(units)[key];
    var u := units[i];
    var root := RootOf(u, units);
    SuffixIsClean(u);
    CleanConcat(BaseOf(u), SuffixOf(u));
    var n: nat :| n >= 1 && codes[i] == Candidate(root, n);
    DecimalIsClean(n);
    CleanConcat(root, Decimal(n));
  }

  lemma ItemIsClean()
    ensures IsClean("ITEM")
  {
    assert "ITEM"[0] == 'I' && "ITEM"[1] == 'T' && "ITEM"[2] == 'E' && "ITEM"[3] == 'M';
  }

  lemma SuffixIsClean(u: LegacyUnit)
    ensures IsClean(SuffixOf(u))
  {
    hide Core, IsClean;
    var source := Or(u.city, Or(u.group, u.key));
    ItemIsClean();
    CoreIsClean(if source != "" then source else "ITEM");
  }

  /** The two loops of `buildLegacyUnitCodeMap`; the inner one tries candidates until one is free. */
  method BuildLegacyUnitCodeMap(units: seq<LegacyUnit>) returns (codeByKey: map<string, string>)
    ensures codeByKey == UnitCodes(units)
  {
    hide BaseOf, SuffixOf;
    var baseCounts: map<string, nat> := map[];
    var i := 0;
    while i < |units|
      invariant 0 <= i <= |units|
      invariant forall base :: (if base in baseCounts then baseCounts[base] else 0) == BaseCount(units[..i], base)
    {
      var base := BaseOf(units[i]);
      BaseCountSnoc(units[..i], units[i]);
      assert units[..i + 1] == units[..i] + [units[i]];
      baseCounts := baseCounts[base := (if base in baseCounts then baseCounts[base] else 0) + 1];
      i := i + 1;
    }
    assert units[..i] == units;
    codeByKey := AssignCodes(units, baseCounts);
  }

  lemma {:induction false} BaseCountSnoc(units: seq<LegacyUnit>, u: LegacyUnit)
    ensures forall base :: BaseCount(units + [u], base) == BaseCount(units, base) + if BaseOf(u) == base then 1 else 0
  {
    hide BaseOf;
    if units == [] {
      assert [] + [u] == [u] && [u][1..] == [];
    } else {
      assert (units + [u])[1..] == units[1..] + [u];
      BaseCountSnoc(units[1..], u);
    }
  }

  method AssignCodes(units: seq<LegacyUnit>, baseCounts: map<string, nat>) returns (codeByKey: map<string, string>)
    requires forall base :: (if base in baseCounts then baseCounts[base] else 0) == BaseCount(units, base)
    ensures codeByKey == UnitCodes(units)
  {
    hide UnitCodes, BaseOf, SuffixOf, BaseCount, RootOf, Codes, FirstFree, CodeMap, IsCandidate;
    var used: set<string> := {};
    ghost var done: seq<string> := [];
    codeByKey := map[];
    assert codeByKey == CodeMap(units[..0], done) by { CodeMapNone(units[..0], done); }
    ghost var all := Codes(units, units, {});
    UnitCodesIs(units);
    var i := 0;
    assert units[0..] == units && [] + all == all;
    while i < |units|
      invariant 0 <= i <= |units| && |done| == i
      invariant done + Codes(units[i..], units, used) == all
      invariant codeByKey == CodeMap(units[..i], done)
    {
      var u := units[i];
      var candidate := NextCode(u, units, baseCounts, used);
      CodesCons(units[i..], units, used);
      assert units[i..][1..] == units[i + 1..];
      CodeMapSnoc(units[..i], done, u, candidate);
      assert units[..i + 1] == units[..i] + [u];
      used := used + {candidate};
      codeByKey := codeByKey[u.key := candidate];
      done := done + [candidate];
      i := i + 1;
    }
    assert units[i..] == [] && units[..i] == units;
    CodesNone(units, used);
    assert done + [] == done;
  }

  method NextCode(u: LegacyUnit, ghost units: seq<LegacyUnit>, baseCounts: map<string, nat>, used: set<string>)
    returns (candidate: string)
    requires forall base :: (if base in baseCounts then baseCounts[base] else 0) == BaseCount(units, base)
    ensures candidate == FirstFree(RootOf(u, units), used, 1)
  {
    hide BaseOf, SuffixOf, BaseCount, FirstFree;
    var base := BaseOf(u);
    var duplicated := (if base in baseCounts then baseCounts[base] else 0) > 1;
    var suffix := SuffixOf(u);
    var root := if duplicated then base + "-" + suffix else base;
    candidate := PickFree(root, used);
  }

  /** The inner loop; it ends because the candidates are distinct and only finitely many codes are used. */
  method PickFree(root: string, used: set<string>) returns (candidate: string)
    ensures candidate == FirstFree(root, used, 1)
  {
    candidate := root;
    var counter := 2;
    while candidate in used
      invariant counter >= 2 && candidate == Candidate(root, counter - 1)
      invariant FirstFree(root, used, counter - 1) == FirstFree(root, used, 1)
      decreases used - Tried(root, counter - 1)
    {
      TriedShrinks(root, used, counter - 1);
      candidate := root + "-" + Decimal(counter);
      counter := counter + 1;
    }
  }

  lemma CodesCons(units: seq<LegacyUnit>, all: seq<LegacyUnit>, used: set<string>)
    requires units != []
    ensures var code := FirstFree(RootOf(units[0], all), used, 1);
            Codes(units, all, used) == [code] + Codes(units[1..], all, used + {code})
  {
  }

  lemma CodesNone(all: seq<LegacyUnit>, used: set<string>)
    ensures Codes([], all, used) == []
  {
  }

  lemma CodeMapNone(units: seq<LegacyUnit>, codes: seq<string>)
    requires |units| == |codes| && units == []
    ensures CodeMap(units, codes) == map[]
  {
  }

  lemma CodeMapSnoc(units: seq<LegacyUnit>, codes: seq<string>, u: LegacyUnit, code: string)
    requires |units| == |codes|
    ensures CodeMap(units + [u], codes + [code]) == CodeMap(units, codes)[u.key := code]
  {
    assert (units + [u])[..|units|] == units && (codes + [code])[..|units|] == codes;
  }
}
