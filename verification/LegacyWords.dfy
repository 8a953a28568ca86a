/**
 What the codes of apps/api/scripts/export-legacy-sqlite.py and apps/api/scripts/import-legacy-catalog.ts are made
 of: the words of a text, and the number that tells units of one code apart.
 */
module LegacyWords {
  import opened LegacyBundle
  import opened LegacyCodes
  import opened LegacyExport
  import opened LegacyImport
  import opened Text

  // ---------- the words of a text ----------

  /** The longest stretches without a separator, the first of them led by what was read of it already. */
  function WordsFrom(s: string, separates: char -> bool, begun: string): seq<string> {
    if s == "" then (if begun == "" then [] else [begun])
    else if separates(s[0]) then (if begun == "" then [] else [begun]) + WordsFrom(s[1..], separates, "")
    else WordsFrom(s[1..], separates, begun + [s[0]])
  }

  function Words(s: string, separates: char -> bool): seq<string> {
    WordsFrom(s, separates, "")
  }

  ghost predicate AllSeparate(s: string, separates: char -> bool) {
    forall i :: 0 <= i < |s| ==> separates(s[i])
  }

  ghost predicate NoneSeparates(s: string, separates: char -> bool) {
    forall i :: 0 <= i < |s| ==> !separates(s[i])
  }

  /** The text is separators, a word, at least one separator, the next word and so on to its end. */
  ghost predicate MadeOf(s: string, separates: char -> bool, words: seq<string>)
    decreases |words|
  {
    if words == [] then AllSeparate(s, separates)
    else exists gap, rest ::
      && s == gap + words[0] + rest && AllSeparate(gap, separates) && words[0] != ""
      && NoneSeparates(words[0], separates) && (rest == "" || separates(rest[0])) && MadeOf(rest, separates, words[1..])
  }

  /** The same, when the first word has begun. */
  ghost predicate MadeOfFrom(s: string, separates: char -> bool, begun: string, words: seq<string>) {
    if begun == "" then MadeOf(s, separates, words)
    else words != [] && exists more, rest ::
      && words[0] == begun + more && s == more + rest && NoneSeparates(more, separates)
      && (rest == "" || separates(rest[0])) && MadeOf(rest, separates, words[1..])
  }

  lemma {:induction false} WordsFromMean(s: string, separates: char -> bool, begun: string)
    requires NoneSeparates(begun, separates)
    ensures MadeOfFrom(s, separates, begun, WordsFrom(s, separates, begun))
    decreases |s|
  {
    hide MadeOf, MadeOfFrom;
    if s == "" {
      NoMore(separates, begun);
    } else if separates(s[0]) {
      WordsFromMean(s[1..], separates, "");
      WordEnds(s, separates, begun, WordsFrom(s[1..], separates, ""));
    } else {
      var next := begun + [s[0]];
      WordsFromMean(s[1..], separates, next);
      WordGrows(s, separates, begun, WordsFrom(s[1..], separates, next));
    }
  }

  lemma NoMore(separates: char -> bool, begun: string)
    ensures MadeOfFrom("", separates, begun, if begun == "" then [] else [begun])
  {
    NoWords("", separates);
    if begun != "" {
      assert begun == begun + "" && "" == "" + "" && [begun][1..] == [];
    }
  }

  lemma WordEnds(s: string, separates: char -> bool, begun: string, rest: seq<string>)
    requires s != "" && separates(s[0]) && MadeOfFrom(s[1..], separates, "", rest)
    ensures MadeOfFrom(s, separates, begun, (if begun == "" then [] else [begun]) + rest)
  {
    hide MadeOf;
    GapBefore(s, separates, rest);
    if begun != "" {
      assert ([begun] + rest)[1..] == rest && begun == begun + "" && s == "" + s;
    } else {
      assert [] + rest == rest;
    }
  }

  lemma WordGrows(s: string, separates: char -> bool, begun: string, words: seq<string>)
    requires s != "" && !separates(s[0]) && MadeOfFrom(s[1..], separates, begun + [s[0]], words)
    ensures MadeOfFrom(s, separates, begun, words)
  {
    hide MadeOf;
    var more, rest :| words[0] == begun + [s[0]] + more && s[1..] == more + rest && NoneSeparates(more, separates)
        && (rest == "" || separates(rest[0])) && MadeOf(rest, separates, words[1..]);
    assert words[0] == begun + ([s[0]] + more) && s == [s[0]] + more + rest;
    assert NoneSeparates([s[0]] + more, separates);
    if begun == "" {
      FirstWord(s, separates, words, [s[0]] + more, rest);
    }
  }

  lemma NoWords(s: string, separates: char -> bool)
    requires AllSeparate(s, separates)
    ensures MadeOf(s, separates, [])
  {
  }

  lemma FirstWord(s: string, separates: char -> bool, words: seq<string>, word: string, rest: string)
    requires words != [] && words[0] == word && word != "" && s == word + rest && NoneSeparates(word, separates)
    requires (rest == "" || separates(rest[0])) && MadeOf(rest, separates, words[1..])
    ensures MadeOf(s, separates, words)
  {
    assert s == "" + words[0] + rest;
  }

  lemma GapBefore(s: string, separates: char -> bool, words: seq<string>)
    requires s != "" && separates(s[0]) && MadeOf(s[1..], separates, words)
    ensures MadeOf(s, separates, words)
  {
    if words == [] {
      assert s == [s[0]] + s[1..];
    } else {
      var gap, rest :| s[1..] == gap + words[0] + rest && AllSeparate(gap, separates) && words[0] != ""
          && NoneSeparates(words[0], separates) && (rest == "" || separates(rest[0]))
          && MadeOf(rest, separates, words[1..]);
      assert AllSeparate([s[0]] + gap, separates);
      hide MadeOf, AllSeparate, NoneSeparates;
      Prepended(s, gap, words[0], rest);
      FromGap(s, separates, words, [s[0]] + gap, rest);
    }
  }

  lemma Prepended(s: string, gap: string, word: string, rest: string)
    requires s != "" && s[1..] == gap + word + rest
    ensures s == ([s[0]] + gap) + word + rest
  {
    assert s == [s[0]] + s[1..];
  }

  lemma FromGap(s: string, separates: char -> bool, words: seq<string>, gap: string, rest: string)
    requires words != [] && s == gap + words[0] + rest && AllSeparate(gap, separates) && words[0] != ""
    requires NoneSeparates(words[0], separates) && (rest == "" || separates(rest[0]))
    requires MadeOf(rest, separates, words[1..])
    ensures MadeOf(s, separates, words)
  {
    hide AllSeparate, NoneSeparates;
  }

  lemma WordsMean(s: string, separates: char -> bool)
    ensures MadeOf(s, separates, Words(s, separates))
  {
    WordsFromMean(s, separates, "");
  }

  // ---------- dashes for separators ----------

  /** Putting a dash for each run of some separators leaves the words as they are. */
  lemma {:induction false} DashesKeepWords(s: string, p: char -> bool, separates: char -> bool, inRun: bool,
                                           begun: string)
    requires separates('-') && (forall c: char :: p(c) ==> separates(c)) && (inRun ==> begun == "")
    ensures WordsFrom(DashRuns(s, p, inRun), separates, begun) == WordsFrom(s, separates, begun)
    decreases |s|
  {
    if s != "" {
      var rest := s[1..];
      if p(s[0]) {
        DashesKeepWords(rest, p, separates, true, "");
        var dashed := DashRuns(rest, p, true);
        if inRun {
          assert "" + dashed == dashed;
        } else {
          assert ("-" + dashed)[1..] == dashed;
        }
      } else {
        var dashed := DashRuns(rest, p, false);
        assert ([s[0]] + dashed)[1..] == dashed;
        DashesKeepWords(rest, p, separates, false, if separates(s[0]) then "" else begun + [s[0]]);
      }
    }
  }

  lemma {:induction false} LastDash(s: string, separates: char -> bool, begun: string)
    requires separates('-')
    ensures WordsFrom(s + "-", separates, begun) == WordsFrom(s, separates, begun)
    decreases |s|
  {
    if s == "" {
      assert "" + "-" == "-" && "-"[1..] == "";
      assert WordsFrom("", separates, "") == [];
    } else {
      assert (s + "-")[1..] == s[1..] + "-";
      LastDash(s[1..], separates, if separates(s[0]) then "" else begun + [s[0]]);
    }
  }

  /** Single dashes between words, the first of which may have begun. */
  ghost predicate SingleDashed(s: string, separates: char -> bool, begun: string) {
    && (forall i :: 0 <= i < |s| ==> (separates(s[i]) <==> s[i] == '-'))
    && NoDoubleDash(s) && (s != "" ==> s[|s| - 1] != '-' && (begun == "" ==> s[0] != '-'))
  }

  lemma SingleDashedTail(s: string, separates: char -> bool, begun: string)
    requires SingleDashed(s, separates, begun) && s != ""
    ensures separates(s[0]) <==> s[0] == '-'
    ensures if s[0] == '-' then begun != "" && s[1..] != "" && SingleDashed(s[1..], separates, "")
            else SingleDashed(s[1..], separates, begun + [s[0]])
  {
  }

  lemma JoinFew(word: string)
    ensures Join([], "-") == "" && Join([word], "-") == word
  {
  }

  lemma DashJoins(s: string, begun: string, rest: seq<string>)
    requires s != "" && s[0] == '-' && rest != [] && Join(rest, "-") == "" + s[1..]
    ensures Join([begun] + rest, "-") == begun + s
  {
    JoinCons(begun, rest, "-");
    hide Join;
    assert "" + s[1..] == s[1..] && begun + "-" + s[1..] == begun + s;
  }

  /** A text of single dashes between words is its words joined by dashes. */
  lemma {:induction false} SingleDashes(s: string, separates: char -> bool, begun: string)
    requires SingleDashed(s, separates, begun)
    ensures Join(WordsFrom(s, separates, begun), "-") == begun + s
    ensures WordsFrom(s, separates, begun) == [] <==> begun == "" && s == ""
    decreases |s|
  {
    hide SingleDashed, Join;
    if s == "" {
      assert begun + "" == begun;
      JoinFew(begun);
    } else {
      SingleDashedTail(s, separates, begun);
      if s[0] == '-' {
        SingleDashes(s[1..], separates, "");
        DashJoins(s, begun, WordsFrom(s[1..], separates, ""));
      } else {
        SingleDashes(s[1..], separates, begun + [s[0]]);
        assert begun + [s[0]] + s[1..] == begun + s;
      }
    }
  }

  // ---------- cleaned codes ----------

  /** A code keeps capital letters, digits, dots and underscores; the rest separates its words. */
  predicate SeparatesCode(c: char) {
    !('A' <= c <= 'Z' || '0' <= c <= '9' || c == '.' || c == '_')
  }

  lemma {:induction false} StrippedEdges(s: string)
    ensures Words(StripEdges(s), SeparatesCode) == Words(s, SeparatesCode)
  {
    var t := if s != "" && s[0] == '-' then s[1..] else s;
    assert Words(t, SeparatesCode) == Words(s, SeparatesCode) by {
      if s != "" && s[0] == '-' {
        assert [] + WordsFrom(s[1..], SeparatesCode, "") == WordsFrom(s[1..], SeparatesCode, "");
      }
    }
    if t != "" && t[|t| - 1] == '-' {
      LastDash(t[..|t| - 1], SeparatesCode, "");
      assert t == t[..|t| - 1] + "-";
    }
  }

  lemma SqueezedWords(s: string)
    ensures Words(Squeeze(s), SeparatesCode) == Words(Upper(Trim(s)), SeparatesCode)
  {
    var text := Upper(Trim(s));
    var once := DashRuns(text, IsSpace, false);
    var twice := DashRuns(once, Foreign, false);
    DashesKeepWords(text, IsSpace, SeparatesCode, false, "");
    DashesKeepWords(once, Foreign, SeparatesCode, false, "");
    DashesKeepWords(twice, IsDash, SeparatesCode, false, "");
    hide DashRuns, Upper, Trim;
  }

  lemma CoreJoins(s: string)
    ensures Core(s) == Join(Words(Upper(Trim(s)), SeparatesCode), "-")
    ensures Core(s) == "" <==> Words(Upper(Trim(s)), SeparatesCode) == []
  {
    hide Squeeze, StripEdges, Upper, Trim;
    CoreIsClean(s);
    SqueezedWords(s);
    StrippedEdges(Squeeze(s));
    var core := Core(s);
    forall i | 0 <= i < |core| ensures SeparatesCode(core[i]) <==> core[i] == '-' {
      assert core != "" ==> AllAllowed(core);
    }
    SingleDashes(core, SeparatesCode, "");
    assert "" + core == core;
  }

  /** A cleaned code is the words of the text joined by dashes; without any word it is the fallback as it is. */
  lemma CleanCodeMeans(value: string, default: string)
    ensures exists words :: MadeOf(Upper(Trim(if value != "" then value else default)), SeparatesCode, words)
                            && CleanCode(value, default) == if words == [] then default else Join(words, "-")
  {
    hide Core, Upper, Trim, MadeOf;
    var chosen := if value != "" then value else default;
    CoreJoins(chosen);
    WordsMean(Upper(Trim(chosen)), SeparatesCode);
  }

  // ---------- slugs ----------

  /** A slug keeps capital letters and digits. */
  predicate SeparatesSlug(c: char) {
    !('A' <= c <= 'Z' || '0' <= c <= '9')
  }

  lemma {:induction false} StripLeftKeeps(s: string)
    ensures Words(StripLeft(s), SeparatesSlug) == Words(s, SeparatesSlug)
  {
    if s != "" && s[0] == '-' {
      StripLeftKeeps(s[1..]);
      assert [] + WordsFrom(s[1..], SeparatesSlug, "") == WordsFrom(s[1..], SeparatesSlug, "");
    }
  }

  lemma {:induction false} StripRightKeeps(s: string)
    ensures Words(StripRight(s), SeparatesSlug) == Words(s, SeparatesSlug)
  {
    if s != "" && s[|s| - 1] == '-' {
      StripRightKeeps(s[..|s| - 1]);
      LastDash(s[..|s| - 1], SeparatesSlug, "");
      assert s == s[..|s| - 1] + "-";
    }
  }

  /** The text before the limit cuts it: the words of the folded text in capitals, or the fallback. */
  ghost predicate FullSlug(fold: string -> string, value: string, default: string, full: string) {
    exists words :: MadeOf(Upper(fold(if value != "" then value else default)), SeparatesSlug, words)
                    && full == if words == [] then default else Join(words, "-")
  }

  /** The text up to the limit, without a dash at the cut. */
  ghost function CutAt(full: string, limit: nat): string
    requires limit >= 1
  {
    if |full| <= limit then full else if full[limit - 1] == '-' then full[..limit - 1] else full[..limit]
  }

  /** A full slug up to the limit. */
  ghost predicate SlugAs(fold: string -> string, value: string, default: string, limit: nat, text: string)
    requires limit >= 1
  {
    exists full :: FullSlug(fold, value, default, full) && full != "" && text == CutAt(full, limit)
  }

  lemma DashedJoins(folded: string)
    ensures var dashed := DashRuns(Strip(DashRuns(folded, NotAlnum, false)), IsDash, false);
            && dashed == Join(Words(folded, SeparatesSlug), "-") && (dashed == "" || IsSlug(dashed))
            && (dashed == "" <==> Words(folded, SeparatesSlug) == [])
  {
    var runs := DashRuns(folded, NotAlnum, false);
    DashRunsDashed(folded, false);
    StripDashed(runs);
    var stripped := Strip(runs);
    DashRunsKeeps(stripped, false);
    DashesKeepWords(folded, NotAlnum, SeparatesSlug, false, "");
    StripLeftKeeps(runs);
    StripRightKeeps(StripLeft(runs));
    hide DashRuns, StripLeft, StripRight;
    forall i | 0 <= i < |stripped| ensures SeparatesSlug(stripped[i]) <==> stripped[i] == '-' {
      assert IsAlnum(stripped[i]) || stripped[i] == '-';
    }
    SingleDashes(stripped, SeparatesSlug, "");
    assert "" + stripped == stripped;
  }

  lemma CutStrips(full: string, limit: nat)
    requires IsSlug(full) && limit >= 1
    ensures var s := Strip(Cut(full, limit));
            s == CutAt(full, limit)
  {
    var cut := Cut(full, limit);
    assert cut[0] == full[0];
    StripLeftIdle(cut);
    if |full| > limit && full[limit - 1] == '-' {
      assert limit >= 2 && full[limit - 2] != '-';
      assert cut[..|cut| - 1] == full[..limit - 1];
      StripRightIdle(full[..limit - 1]);
    } else {
      StripRightIdle(cut);
    }
  }

  lemma StripRightIdle(s: string)
    ensures s != "" && s[|s| - 1] != '-' ==> StripRight(s) == s
  {
  }

  /**
   A slug is the words of the folded text in capitals, joined by dashes, or the fallback when there are none; the
   limit cuts it, and a dash at the cut goes too.
   */
  lemma SlugMeans(fold: string -> string, value: string, default: string, limit: nat)
    requires limit >= 1 && IsSlug(default)
    ensures SlugAs(fold, value, default, limit, Slug(fold, value, default, limit))
  {
    hide DashRuns, Strip, Upper, MadeOf;
    var folded := Upper(fold(Or(value, default)));
    var dashed := DashRuns(Strip(DashRuns(folded, NotAlnum, false)), IsDash, false);
    DashedJoins(folded);
    WordsMean(folded, SeparatesSlug);
    var full := Or(dashed, default);
    CutStrips(full, limit);
    assert FullSlug(fold, value, default, full);
  }

  /** The slugs of the exporter: of a partner, of a unit's group and name, and of a Starlink. */
  lemma ExportedSlugs(fold: string -> string, name: string, row: Contact, star: Starlink)
    ensures SlugAs(fold, name, "SEM-PARCEIRO", 32, PartnerSlug(fold, name))
    ensures exists group, unit :: SlugAs(fold, row.group, "GRP", 14, group)
                                  && SlugAs(fold, row.unitName, "UNIDADE", 42, unit)
                                  && UnitSlug(fold, row) == group + "-" + unit
    ensures var value := if star.antennaId != "" then star.antennaId else star.id;
            exists slug :: SlugAs(fold, value, "SEM-ID", 24, slug) && StarlinkTag(fold, star) == "STARLINK-" + slug
  {
    ConstantSlugs();
    hide Slug, IsSlug, SlugAs;
    SlugMeans(fold, name, "SEM-PARCEIRO", 32);
    SlugMeans(fold, row.group, "GRP", 14);
    SlugMeans(fold, row.unitName, "UNIDADE", 42);
    var value := if star.antennaId != "" then star.antennaId else star.id;
    assert value == Or(star.antennaId, star.id);
    SlugMeans(fold, value, "SEM-ID", 24);
    var slug := Slug(fold, value, "SEM-ID", 24);
    assert SlugAs(fold, value, "SEM-ID", 24, slug) && StarlinkTag(fold, star) == "STARLINK-" + slug;
  }

  // ---------- the order of texts ----------

  /** The first text has the smaller character where the two first differ. */
  ghost predicate Smaller(a: string, b: string) {
    exists k :: 0 <= k < |a| && k < |b| && a[..k] == b[..k] && a[k] < b[k]
  }

  lemma SmallerTail(a: string, b: string)
    requires a != "" && b != "" && a[0] == b[0]
    ensures Smaller(a, b) <==> Smaller(a[1..], b[1..])
    ensures a <= b <==> a[1..] <= b[1..]
  {
    var x, y := a[1..], b[1..];
    if k :| 0 <= k < |x| && k < |y| && x[..k] == y[..k] && x[k] < y[k] {
      assert a[..k + 1] == [a[0]] + x[..k] && b[..k + 1] == [b[0]] + y[..k] && a[k + 1] < b[k + 1];
    }
    if k :| 0 <= k < |a| && k < |b| && a[..k] == b[..k] && a[k] < b[k] {
      assert k > 0 && x[..k - 1] == a[..k][1..] && y[..k - 1] == b[..k][1..] && x[k - 1] < y[k - 1];
    }
    assert a == [a[0]] + x && b == [b[0]] + y;
  }

  lemma SmallerHead(a: string, b: string)
    requires a != "" && b != "" && a[0] != b[0]
    ensures Smaller(a, b) <==> a[0] < b[0]
    ensures !(a <= b)
  {
    if a[0] < b[0] {
      assert a[..0] == b[..0];
    } else {
      forall k | 0 < k < |a| && k < |b| ensures a[..k] != b[..k] {
        assert a[..k][0] == a[0] && b[..k][0] == b[0];
      }
    }
  }

  /** One text stands before another if it starts it, or has the smaller character where they first differ. */
  lemma {:induction false} AtMostMeans(a: string, b: string)
    ensures AtMost(a, b) <==> a <= b || Smaller(a, b)
  {
    if a != "" && b != "" {
      if a[0] == b[0] {
        SmallerTail(a, b);
        hide Smaller;
        AtMostMeans(a[1..], b[1..]);
      } else {
        SmallerHead(a, b);
      }
    }
  }

  // ---------- normalised names ----------

  predicate SeparatesName(c: char) {
    !('a' <= c <= 'z' || '0' <= c <= '9')
  }

  lemma {:induction false} LettersAreWords(s: string, begun: string)
    ensures begun + LowerAlnum(s) == Join(WordsFrom(s, SeparatesName, begun), "")
    decreases |s|
  {
    if s == "" {
      assert begun + "" == begun;
    } else if SeparatesName(s[0]) {
      LettersAreWords(s[1..], "");
      assert "" + LowerAlnum(s[1..]) == LowerAlnum(s[1..]) && LowerAlnum(s) == "" + LowerAlnum(s[1..]);
      Flushed(begun, WordsFrom(s[1..], SeparatesName, ""));
    } else {
      LettersAreWords(s[1..], begun + [s[0]]);
      assert begun + LowerAlnum(s) == begun + [s[0]] + LowerAlnum(s[1..]);
    }
  }

  lemma Flushed(begun: string, rest: seq<string>)
    ensures Join((if begun == "" then [] else [begun]) + rest, "") == begun + Join(rest, "")
  {
    if begun == "" {
      assert [] + rest == rest && "" + Join(rest, "") == Join(rest, "");
    } else if rest == [] {
      assert [begun] + [] == [begun] && begun + "" == begun;
    } else {
      JoinCons(begun, rest, "");
      assert begun + "" == begun;
    }
  }

  /** A normalised name is the words of the folded text in small letters, written without a break. */
  lemma NormMeans(fold: string -> string, value: string)
    ensures exists words :: MadeOf(Lower(fold(value)), SeparatesName, words)
                            && Norm(fold, value) == Join(words, "")
  {
    hide MadeOf, Lower;
    WordsMean(Lower(fold(value)), SeparatesName);
    LettersAreWords(Lower(fold(value)), "");
    assert "" + LowerAlnum(Lower(fold(value))) == LowerAlnum(Lower(fold(value)));
  }

  lemma {:induction false} LettersOnly(s: string)
    ensures NoneSeparates(LowerAlnum(s), SeparatesName)
  {
    if s != "" {
      LettersOnly(s[1..]);
    }
  }

  /** Two texts without a colon before a double colon can be told from what follows it. */
  lemma ColonSplits(a: string, b: string, x: string, y: string)
    requires ':' !in a && ':' !in b && a + "::" + x == b + "::" + y
    ensures a == b && x == y
  {
    var s, t := a + "::" + x, b + "::" + y;
    assert s[|a|] == ':' && t[|b|] == ':';
    assert forall k :: 0 <= k < |b| ==> t[k] == b[k] && b[k] in b;
    assert forall k :: 0 <= k < |a| ==> s[k] == a[k] && a[k] in a;
    assert a == s[..|a|] && b == t[..|b|] && x == s[|a| + 2..] && y == t[|b| + 2..];
  }

  lemma NoColon(fold: string -> string, value: string)
    ensures ':' !in Norm(fold, value)
  {
    LettersOnly(Lower(fold(value)));
  }

  /** Two contacts are of one unit if and only if their groups, unit names and cities have the same normal form. */
  lemma UnitKeyTells(fold: string -> string, a: Contact, b: Contact)
    ensures UnitKey(fold, a) == UnitKey(fold, b)
        <==> Norm(fold, a.group) == Norm(fold, b.group) && Norm(fold, a.unitName) == Norm(fold, b.unitName)
             && Norm(fold, a.city) == Norm(fold, b.city)
  {
    hide Norm;
    NoColon(fold, a.group);
    NoColon(fold, b.group);
    NoColon(fold, a.unitName);
    NoColon(fold, b.unitName);
    if UnitKey(fold, a) == UnitKey(fold, b) {
      var x := Norm(fold, a.unitName) + "::" + Norm(fold, a.city);
      var y := Norm(fold, b.unitName) + "::" + Norm(fold, b.city);
      assert UnitKey(fold, a) == Norm(fold, a.group) + "::" + x && UnitKey(fold, b) == Norm(fold, b.group) + "::" + y;
      ColonSplits(Norm(fold, a.group), Norm(fold, b.group), x, y);
      ColonSplits(Norm(fold, a.unitName), Norm(fold, b.unitName), Norm(fold, a.city), Norm(fold, b.city));
    }
  }

  // ---------- the codes of the units ----------

  /** The code a unit has for itself. */
  ghost function OwnCode(u: LegacyUnit): string {
    CleanCode(u.code, "LEGACY-UNIT-" + u.key)
  }

  /** What is put behind the code of several units: the city, else the group, else the key. */
  ghost function Behind(u: LegacyUnit): string {
    CleanCode(if u.city != "" then u.city else if u.group != "" then u.group else u.key, "ITEM")
  }

  ghost predicate SharesCode(units: seq<LegacyUnit>, i: nat)
    requires i < |units|
  {
    exists j :: 0 <= j < |units| && j != i && OwnCode(units[j]) == OwnCode(units[i])
  }

  ghost function RootCode(units: seq<LegacyUnit>, i: nat): string
    requires i < |units|
  {
    if SharesCode(units, i) then OwnCode(units[i]) + "-" + Behind(units[i]) else OwnCode(units[i])
  }

  /** The n-th code of a root: the root itself, then numbered from 2 on. */
  ghost function Numbered(root: string, n: nat): string {
    if n == 1 then root else root + "-" + Decimal(n)
  }

  /** Each unit gets the first code of its root that no unit before it has. */
  ghost predicate Allotted(units: seq<LegacyUnit>, codes: seq<string>) {
    && |codes| == |units|
    && forall i :: 0 <= i < |units| ==> AllottedAt(units, codes, i)
  }

  ghost predicate AllottedAt(units: seq<LegacyUnit>, codes: seq<string>, i: nat)
    requires i < |units| == |codes|
  {
    && codes[i] !in codes[..i]
    && exists n: nat :: n >= 1 && codes[i] == Numbered(RootCode(units, i), n)
                        && forall m: nat :: 1 <= m < n ==> Numbered(RootCode(units, i), m) in codes[..i]
  }

  lemma {:induction false} CountShared(units: seq<LegacyUnit>, base: string, i: nat)
    requires i < |units| && BaseOf(units[i]) == base
    ensures BaseCount(units, base) >= 1
    ensures BaseCount(units, base) > 1 <==> exists j :: 0 <= j < |units| && j != i && BaseOf(units[j]) == base
    decreases |units|
  {
    hide BaseOf;
    var rest := units[1..];
    if i > 0 {
      CountShared(rest, base, i - 1);
      if j :| 0 <= j < |rest| && j != i - 1 && BaseOf(rest[j]) == base {
        assert BaseOf(units[j + 1]) == base;
      }
      if j :| 0 <= j < |units| && j != i && BaseOf(units[j]) == base {
        assert j > 0 ==> BaseOf(rest[j - 1]) == base;
      }
    } else {
      CountNoneIff(rest, base);
      if j :| 0 <= j < |rest| && BaseOf(rest[j]) == base {
        assert BaseOf(units[j + 1]) == base;
      }
      if j :| 0 < j < |units| && BaseOf(units[j]) == base {
        assert BaseOf(rest[j - 1]) == base;
      }
    }
  }

  lemma {:induction false} CountNoneIff(units: seq<LegacyUnit>, base: string)
    ensures BaseCount(units, base) == 0 <==> forall j :: 0 <= j < |units| ==> BaseOf(units[j]) != base
  {
    hide BaseOf;
    if units != [] {
      CountNoneIff(units[1..], base);
      assert forall j :: 0 < j < |units| ==> units[j] == units[1..][j - 1];
      assert forall j :: 0 <= j < |units[1..]| ==> units[1..][j] == units[j + 1];
    }
  }

  lemma RootIs(units: seq<LegacyUnit>, i: nat)
    requires i < |units|
    ensures RootOf(units[i], units) == RootCode(units, i)
  {
    CountShared(units, BaseOf(units[i]), i);
    hide CleanCode, BaseCount;
  }

  /** The first free code of a root is its first number whose code is not used. */
  lemma {:induction false} FirstFreeMeans(root: string, used: set<string>, k: nat)
    requires k >= 1
    ensures exists n: nat :: n >= k && FirstFree(root, used, k) == Numbered(root, n)
                             && forall m: nat :: k <= m < n ==> Numbered(root, m) in used
    decreases used - Tried(root, k)
  {
    assert Candidate(root, k) == Numbered(root, k);
    if Candidate(root, k) in used {
      TriedShrinks(root, used, k);
      FirstFreeMeans(root, used, k + 1);
      var n: nat :| n >= k + 1 && FirstFree(root, used, k + 1) == Numbered(root, n)
          && forall m: nat :: k + 1 <= m < n ==> Numbered(root, m) in used;
      forall m: nat | k <= m < n ensures Numbered(root, m) in used {
      }
    }
  }

  /** The codes handed out from position i on, after those before it. */
  lemma {:induction false} CodesAllotted(all: seq<LegacyUnit>, i: nat, before: seq<string>, used: set<string>)
    requires i <= |all| && |before| == i && forall code :: code in used <==> code in before
    ensures var codes := before + Codes(all[i..], all, used);
            |codes| == |all| && forall j :: i <= j < |all| ==> AllottedAt(all, codes, j)
    decreases |all| - i
  {
    hide RootOf, RootCode, Numbered;
    if i < |all| {
      var code := FirstFree(RootOf(all[i], all), used, 1);
      assert all[i..][0] == all[i] && all[i..][1..] == all[i + 1..];
      CodesCons(all[i..], all, used);
      CodesAllotted(all, i + 1, before + [code], used + {code});
      var codes := before + Codes(all[i..], all, used);
      assert codes == before + [code] + Codes(all[i + 1..], all, used + {code});
      RootIs(all, i);
      FirstFreeMeans(RootOf(all[i], all), used, 1);
      assert codes[..i] == before && codes[i] == code;
    } else {
      CodesNone(all, used);
      assert all[i..] == [];
    }
  }

  /** The last unit of the key. */
  ghost predicate LastOfKey(units: seq<LegacyUnit>, key: string, i: nat) {
    i < |units| && units[i].key == key && forall j :: i < j < |units| ==> units[j].key != key
  }

  lemma LastIsThere(units: seq<LegacyUnit>, key: string, i: nat)
    requires LastOfKey(units, key, i)
    ensures i < |units|
  {
  }

  lemma {:induction false} LastKeyMaps(units: seq<LegacyUnit>, codes: seq<string>, key: string, i: nat)
    requires |units| == |codes| && LastOfKey(units, key, i)
    ensures key in CodeMap(units, codes) && CodeMap(units, codes)[key] == codes[i]
    decreases |units|
  {
    var last := |units| - 1;
    if i < last {
      LastKeyMaps(units[..last], codes[..last], key, i);
    }
  }

  /**
   Every unit of a bundle gets the first code of its root that no unit before it has: its own cleaned code, with
   its city behind it if another unit has the same; units of one key get the code of the last of them.
   */
  lemma UnitCodesMean(units: seq<LegacyUnit>)
    ensures exists codes ::
              && Allotted(units, codes)
              && forall key, i: nat :: LastOfKey(units, key, i) ==>
                   i < |codes| && key in UnitCodes(units) && UnitCodes(units)[key] == codes[i]
  {
    hide AllottedAt, CodeMap, Codes, LastOfKey;
    var codes := Codes(units, units, {});
    UnitCodesIs(units);
    CodesAllotted(units, 0, [], {});
    assert units[0..] == units && [] + codes == codes;
    assert Allotted(units, codes);
    forall key, i: nat | LastOfKey(units, key, i)
      ensures i < |codes| && key in UnitCodes(units) && UnitCodes(units)[key] == codes[i]
    {
      assert i < |units| by { LastIsThere(units, key, i); }
      LastKeyMaps(units, codes, key, i);
    }
  }
}
