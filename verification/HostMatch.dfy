/**
 Choosing the monitored host of a unit: `selectHostMatch` within one integration and the selection
 across integrations of `getZabbixUnitHostTelemetry`, in
 apps/api/src/integrations/integrations.service.ts.

 The score of a host for a unit is given; only the selection is modelled.
 */
module HostMatch {
  import opened Options
  import opened Ranking

  const MIN_SCORE: int := 55
  const MARGIN: int := 12

  datatype Candidate<H> = Candidate(host: H, score: int, syncReady: bool)

  datatype Status = Unmatched | Matched | Ambiguous

  datatype Match<H> = Match(status: Status, score: int, host: Option<H>, candidates: nat, syncReady: bool)

  function Score<H>(c: Candidate<H>): int {
    c.score
  }

  function MatchScore<H>(m: Match<H>): int {
    m.score
  }

  function Positive<H>(s: seq<Candidate<H>>): seq<Candidate<H>> {
    if s == [] then [] else (if s[0].score > 0 then [s[0]] else []) + Positive(s[1..])
  }

  /** How many scores reach a limit. */
  function Count<T>(s: seq<T>, key: T -> int, limit: int): nat {
    if s == [] then 0 else (if key(s[0]) >= limit then 1 else 0) + Count(s[1..], key, limit)
  }

  /** Some second item is good enough and too close to the best. */
  predicate CloseSecond<T>(ranked: seq<T>, key: T -> int) {
    |ranked| > 1 && key(ranked[1]) >= MIN_SCORE && key(ranked[0]) - key(ranked[1]) < MARGIN
  }

  /** `selectHostMatch`. */
  function SelectHost<H>(hosts: seq<Candidate<H>>): Match<H> {
    var ranked := Rank(Positive(hosts), Score);
    if ranked == [] then Match(Unmatched, 0, None, 0, false)
    else if ranked[0].score < MIN_SCORE then Match(Unmatched, ranked[0].score, None, |ranked|, false)
    else
      var best, ambiguous := ranked[0], CloseSecond(ranked, Score);
      Match(if ambiguous then Ambiguous else Matched, best.score, Some(best.host), Count(ranked, Score, MIN_SCORE),
            best.syncReady && !ambiguous)
  }

  function Matches<H>(groups: seq<seq<Candidate<H>>>): seq<Match<H>> {
    if groups == [] then []
    else
      var m := SelectHost(groups[0]);
      (if m.status != Unmatched then [m] else []) + Matches(groups[1..])
  }

  /** The selection across integrations, from the match each of them found. */
  function SelectAmong<H>(found: seq<Match<H>>): Match<H> {
    var ranked := Rank(found, MatchScore);
    if ranked == [] then Match(Unmatched, 0, None, 0, false)
    else
      var best, close := ranked[0], CloseSecond(ranked, MatchScore);
      Match(if best.status == Ambiguous || close then Ambiguous else Matched, best.score, best.host, |ranked|,
            best.syncReady && !close)
  }

  function SelectAcross<H>(groups: seq<seq<Candidate<H>>>): Match<H> {
    SelectAmong(Matches(groups))
  }

  function Flat<T>(groups: seq<seq<T>>): seq<T> {
    if groups == [] then [] else groups[0] + Flat(groups[1..])
  }

  // ---------- what the two-element comparison decides ----------

  /** Any score in the margin below the best, but never below the minimum. */
  function Limit(best: int): int {
    if best - MARGIN + 1 >= MIN_SCORE then best - MARGIN + 1 else MIN_SCORE
  }

  lemma {:induction false} CountInsert<T>(x: T, s: seq<T>, key: T -> int, limit: int)
    ensures Count(Insert(x, s, key), key, limit) == (if key(x) >= limit then 1 else 0) + Count(s, key, limit)
  {
    if s != [] && key(x) < key(s[0]) {
      CountInsert(x, s[1..], key, limit);
    }
  }

  lemma {:induction false} CountRank<T>(s: seq<T>, key: T -> int, limit: int)
    ensures Count(Rank(s, key), key, limit) == Count(s, key, limit)
  {
    if s != [] {
      CountInsert(s[0], Rank(s[1..], key), key, limit);
      CountRank(s[1..], key, limit);
    }
  }

  lemma {:induction false} CountNone<T>(s: seq<T>, key: T -> int, limit: int)
    requires forall i :: 0 <= i < |s| ==> key(s[i]) < limit
    ensures Count(s, key, limit) == 0
  {
    if s != [] {
      CountNone(s[1..], key, limit);
    }
  }

  /** On a sorted list the second item decides whether two scores reach a limit. */
  lemma CountTwoIff<T>(ranked: seq<T>, key: T -> int, limit: int)
    requires Falling(ranked, key) && ranked != [] && key(ranked[0]) >= limit
    ensures Count(ranked, key, limit) >= 2 <==> |ranked| > 1 && key(ranked[1]) >= limit
  {
    var rest := ranked[1..];
    if rest != [] {
      assert rest[0] == ranked[1];
      if key(ranked[1]) < limit {
        forall i | 0 <= i < |rest| ensures key(rest[i]) < limit {
          assert i > 0 ==> key(ranked[1]) >= key(ranked[i + 1]);
        }
        CountNone(rest, key, limit);
      }
    }
  }

  /** The close-second test asks whether two scores lie within the margin of the best. */
  lemma CloseSecondIff<T>(s: seq<T>, key: T -> int)
    requires s != [] && key(First(s, key)) >= MIN_SCORE
    ensures CloseSecond(Rank(s, key), key) <==> Count(s, key, Limit(key(First(s, key)))) >= 2
  {
    var ranked := Rank(s, key);
    RankHead(s, key);
    RankFalls(s, key);
    CountRank(s, key, Limit(key(First(s, key))));
    CountTwoIff(ranked, key, Limit(key(First(s, key))));
  }

  lemma {:induction false} PositiveKeeps<H>(s: seq<Candidate<H>>, limit: int)
    requires limit > 0
    ensures Count(Positive(s), Score, limit) == Count(s, Score, limit)
    ensures Positive(s) == [] ==> Count(s, Score, limit) == 0
    ensures Positive(s) != [] ==> s != [] && First(Positive(s), Score) == First(s, Score)
    ensures Positive(s) == [] && s != [] ==> First(s, Score).score <= 0
    decreases |s|
  {
    if s != [] {
      var rest := s[1..];
      PositiveKeeps(rest, limit);
      if s[0].score > 0 {
        assert ([s[0]] + Positive(rest))[1..] == Positive(rest);
        if rest != [] {
          RankHead(rest, Score);
        }
      } else {
        assert [] + Positive(rest) == Positive(rest);
        if Positive(rest) != [] {
          RankHead(Positive(rest), Score);
          PositiveMembers(rest);
        }
      }
    }
  }

  lemma {:induction false} PositiveMembers<H>(s: seq<Candidate<H>>)
    ensures forall c :: c in Positive(s) ==> c.score > 0
  {
    if s != [] {
      PositiveMembers(s[1..]);
    }
  }

  /** `selectHostMatch` in terms of the best candidate and how many come close to it. */
  lemma SelectHostMeans<H>(hosts: seq<Candidate<H>>)
    ensures var m := SelectHost(hosts);
            if hosts == [] || First(hosts, Score).score < MIN_SCORE then m.status == Unmatched && !m.syncReady
                && m.host == None
            else
              var best := First(hosts, Score);
              var clear := Count(hosts, Score, Limit(best.score)) < 2;
              && m.status == (if clear then Matched else Ambiguous)
              && m.score == best.score && m.host == Some(best.host) && m.syncReady == (best.syncReady && clear)
  {
    hide Rank, First, Count, Positive, CloseSecond;
    var positive := Positive(hosts);
    PositiveKeeps(hosts, MIN_SCORE);
    if positive == [] {
      assert Rank(positive, Score) == [] by { RankNothing(positive, Score); }
    } else {
      RankHead(positive, Score);
      if First(hosts, Score).score >= MIN_SCORE {
        PositiveKeeps(hosts, Limit(First(hosts, Score).score));
        CloseSecondIff(positive, Score);
      }
    }
  }

  lemma RankNothing<T>(s: seq<T>, key: T -> int)
    requires s == []
    ensures Rank(s, key) == []
  {
  }

  // ---------- two levels against one ----------

  lemma {:induction false} CountConcat<T>(a: seq<T>, b: seq<T>, key: T -> int, limit: int)
    ensures Count(a + b, key, limit) == Count(a, key, limit) + Count(b, key, limit)
  {
    if a == [] {
      assert a + b == b;
    } else {
      assert (a + b)[1..] == a[1..] + b;
      CountConcat(a[1..], b, key, limit);
    }
  }

  /** A group reaches a limit exactly when its best does. */
  lemma {:induction false} CountFirst<T>(s: seq<T>, key: T -> int, limit: int)
    requires s != []
    ensures Count(s, key, limit) >= 1 <==> key(First(s, key)) >= limit
  {
    if |s| > 1 {
      CountFirst(s[1..], key, limit);
    } else {
      assert s[1..] == [];
    }
  }

  lemma MatchesCons<H>(groups: seq<seq<Candidate<H>>>)
    requires groups != []
    ensures Matches(groups)
         == (if SelectHost(groups[0]).status != Unmatched then [SelectHost(groups[0])] else []) + Matches(groups[1..])
  {
  }

  /** The matches found are as many as the groups whose best reaches the limit. */
  lemma {:induction false} CountMatches<H>(groups: seq<seq<Candidate<H>>>, limit: int)
    requires limit >= MIN_SCORE
    ensures var found := Count(Matches(groups), MatchScore, limit);
            var all := Count(Flat(groups), Score, limit);
            && (found >= 1 <==> all >= 1) && found <= all
            && (found == 1 ==> forall i :: 0 <= i < |groups| && Count(groups[i], Score, limit) >= 1 ==>
                                 Count(groups[i], Score, limit) == all)
            && (forall i :: 0 <= i < |groups| ==> Count(groups[i], Score, limit) <= all)
  {
    hide SelectHost, First, Rank;
    if groups != [] {
      var g, rest := groups[0], groups[1..];
      CountMatches(rest, limit);
      SelectHostMeans(g);
      CountConcat(g, Flat(rest), Score, limit);
      MatchesCons(groups);
      var m := SelectHost(g);
      if g != [] {
        CountFirst(g, Score, limit);
      }
      CountConcat(if m.status != Unmatched then [m] else [], Matches(rest), MatchScore, limit);
      forall i | 0 <= i < |groups| ensures Count(groups[i], Score, limit) <= Count(Flat(groups), Score, limit) {
        assert i > 0 ==> groups[i] == rest[i - 1];
      }
      if Count(Matches(groups), MatchScore, limit) == 1 {
        forall i | 0 <= i < |groups| && Count(groups[i], Score, limit) >= 1
          ensures Count(groups[i], Score, limit) == Count(Flat(groups), Score, limit)
        {
          assert i > 0 ==> groups[i] == rest[i - 1];
        }
      }
    }
  }

  ghost predicate Strong<H>(s: seq<Candidate<H>>) {
    s != [] && First(s, Score).score >= MIN_SCORE
  }

  lemma StrongConcat<H>(a: seq<Candidate<H>>, b: seq<Candidate<H>>)
    ensures Strong(a + b) <==> Strong(a) || Strong(b)
    ensures Strong(a + b) ==>
              First(a + b, Score) == if Strong(a) && (!Strong(b) || First(a, Score).score >= First(b, Score).score)
                                     then First(a, Score) else First(b, Score)
  {
    hide First;
    if a == [] {
      assert a + b == b;
    } else if b == [] {
      assert a + b == a;
    } else {
      FirstConcat(a, b, Score);
    }
  }

  lemma FirstOfOne<H>(m: Match<H>)
    ensures First([m], MatchScore) == m
  {
  }

  /** The best match comes from the group that holds the best candidate overall. */
  lemma {:induction false} BestMatch<H>(groups: seq<seq<Candidate<H>>>) returns (b: nat)
    ensures Matches(groups) == [] <==> !Strong(Flat(groups))
    ensures Strong(Flat(groups)) ==>
              && b < |groups| && Strong(groups[b]) && First(groups[b], Score) == First(Flat(groups), Score)
              && First(Matches(groups), MatchScore) == SelectHost(groups[b])
  {
    hide SelectHost, First, Rank;
    b := 0;
    if groups != [] {
      var g, rest := groups[0], groups[1..];
      var r := BestMatch(rest);
      SelectHostMeans(g);
      StrongConcat(g, Flat(rest));
      MatchesCons(groups);
      var m := SelectHost(g);
      if Strong(g) {
        FirstOfOne(m);
        if Strong(Flat(rest)) {
          SelectHostMeans(rest[r]);
          FirstConcat([m], Matches(rest), MatchScore);
          b := if First(g, Score).score >= First(Flat(rest), Score).score then 0 else r + 1;
        } else {
          assert [m] + Matches(rest) == [m];
        }
      } else {
        assert [] + Matches(rest) == Matches(rest);
        b := r + 1;
      }
    }
  }

  /**
   Choosing per integration and then across integrations is one choice over all hosts: the same
   status, readiness and score, and the same host.
   */
  lemma TwoLevelsAreOne<H>(groups: seq<seq<Candidate<H>>>)
    ensures var two, one := SelectAcross(groups), SelectHost(Flat(groups));
            && two.status == one.status && two.syncReady == one.syncReady && two.host == one.host
            && (two.status != Unmatched ==> two.score == one.score)
  {
    hide SelectHost, First, Rank, CloseSecond, Count;
    var all, found := Flat(groups), Matches(groups);
    var b := BestMatch(groups);
    SelectHostMeans(all);
    if Strong(all) {
      var top := First(all, Score).score;
      RankHead(found, MatchScore);
      SelectHostMeans(groups[b]);
      CloseSecondIff(found, MatchScore);
      CountMatches(groups, Limit(top));
      CountFirst(groups[b], Score, Limit(top));
      CountFirst(found, MatchScore, Limit(top));
    } else {
      RankNothing(found, MatchScore);
    }
  }

  // ---------- when a match is unambiguous ----------

  /** One candidate reaches the minimum and every other one is weak or at least the margin behind. */
  ghost predicate ClearWinner<H>(s: seq<Candidate<H>>, i: nat) {
    && i < |s| && s[i].score >= MIN_SCORE
    && forall j :: 0 <= j < |s| && j != i ==> s[j].score < MIN_SCORE || s[i].score - s[j].score >= MARGIN
  }

  lemma {:induction false} CountAtLeast<T>(s: seq<T>, key: T -> int, limit: int, i: nat, j: nat)
    requires i < |s| && key(s[i]) >= limit
    ensures Count(s, key, limit) >= 1
    ensures j < |s| && j != i && key(s[j]) >= limit ==> Count(s, key, limit) >= 2
    decreases |s|
  {
    if i > 0 && j > 0 {
      CountAtLeast(s[1..], key, limit, i - 1, j - 1);
    } else if i > 0 {
      CountAtLeast(s[1..], key, limit, i - 1, i - 1);
    } else if 0 < j < |s| && key(s[j]) >= limit {
      CountAtLeast(s[1..], key, limit, j - 1, j - 1);
    }
  }

  lemma {:induction false} CountOnly<T>(s: seq<T>, key: T -> int, limit: int, i: nat)
    requires i < |s| && forall j :: 0 <= j < |s| && j != i ==> key(s[j]) < limit
    ensures Count(s, key, limit) <= 1
  {
    if i == 0 {
      forall j | 0 <= j < |s[1..]| ensures key(s[1..][j]) < limit {
        assert s[1..][j] == s[j + 1];
      }
      CountNone(s[1..], key, limit);
    } else {
      CountOnly(s[1..], key, limit, i - 1);
    }
  }

  lemma MatchedIsClearWinner<H>(s: seq<Candidate<H>>) returns (i: nat)
    requires SelectHost(s).status == Matched
    ensures ClearWinner(s, i) && SelectHost(s).host == Some(s[i].host) && SelectHost(s).score == s[i].score
    ensures SelectHost(s).syncReady == s[i].syncReady
  {
    hide SelectHost, First, Rank, Count;
    SelectHostMeans(s);
    RankHead(s, Score);
    var best := First(s, Score);
    i :| 0 <= i < |s| && s[i] == best;
    forall j | 0 <= j < |s| && j != i ensures s[j].score < MIN_SCORE || best.score - s[j].score >= MARGIN {
      CountAtLeast(s, Score, Limit(best.score), i, j);
    }
  }

  lemma ClearWinnerIsMatched<H>(s: seq<Candidate<H>>, i: nat)
    requires ClearWinner(s, i)
    ensures SelectHost(s).status == Matched && SelectHost(s).host == Some(s[i].host)
  {
    hide SelectHost, First, Rank, Count;
    SelectHostMeans(s);
    RankHead(s, Score);
    var best := First(s, Score);
    assert s[i] in s;
    var k :| 0 <= k < |s| && s[k] == best;
    CountOnly(s, Score, Limit(best.score), i);
  }

  /** A host is matched exactly when there is a clear winner. */
  lemma MatchedIffClearWinner<H>(s: seq<Candidate<H>>)
    ensures SelectHost(s).status == Matched <==> exists i: nat :: ClearWinner(s, i)
  {
    hide SelectHost, ClearWinner;
    if SelectHost(s).status == Matched {
      var i := MatchedIsClearWinner(s);
    }
    if i: nat :| ClearWinner(s, i) {
      ClearWinnerIsMatched(s, i);
    }
  }

  lemma {:induction false} CountBag<T>(a: seq<T>, b: seq<T>, key: T -> int, limit: int)
    requires multiset(a) == multiset(b)
    ensures Count(a, key, limit) == Count(b, key, limit)
    decreases |a|
  {
    assert |a| == |multiset(a)| == |multiset(b)| == |b|;
    if a != [] {
      assert a[0] in multiset(b);
      var k :| 0 <= k < |b| && b[k] == a[0];
      var pre, post := b[..k], b[k + 1..];
      assert b == pre + ([a[0]] + post);
      TailBag(a);
      assert multiset(a[1..]) == multiset(pre + post);
      CountBag(a[1..], pre + post, key, limit);
      CountConcat(pre, post, key, limit);
      CountConcat(pre, [a[0]] + post, key, limit);
      assert ([a[0]] + post)[1..] == post;
    }
  }

  /** A match does not depend on the order in which the hosts, or the integrations, were listed. */
  lemma MatchIsOrderFree<H>(a: seq<Candidate<H>>, b: seq<Candidate<H>>)
    requires multiset(a) == multiset(b) && SelectHost(a).status == Matched
    ensures var m, n := SelectHost(a), SelectHost(b);
            n.status == Matched && n.host == m.host && n.score == m.score && n.syncReady == m.syncReady
  {
    hide SelectHost, First, Rank, Count;
    SelectHostMeans(a);
    SelectHostMeans(b);
    var best := First(a, Score);
    RankHead(a, Score);
    assert best in multiset(b);
    RankHead(b, Score);
    var other := First(b, Score);
    assert other in multiset(a);
    assert best.score == other.score;
    CountBag(a, b, Score, Limit(best.score));
    var i :| 0 <= i < |a| && a[i] == best;
    var j :| 0 <= j < |a| && a[j] == other;
    CountAtLeast(a, Score, Limit(best.score), i, j);
  }

  lemma AcrossIsOrderFree<H>(a: seq<seq<Candidate<H>>>, b: seq<seq<Candidate<H>>>)
    requires multiset(Flat(a)) == multiset(Flat(b)) && SelectAcross(a).status == Matched
    ensures SelectAcross(b).status == Matched && SelectAcross(b).host == SelectAcross(a).host
    ensures SelectAcross(b).syncReady == SelectAcross(a).syncReady && SelectAcross(b).score == SelectAcross(a).score
  {
    hide SelectHost, SelectAcross, Flat;
    TwoLevelsAreOne(a);
    TwoLevelsAreOne(b);
    MatchIsOrderFree(Flat(a), Flat(b));
  }

  // ---------- the whole result, in terms of the scores alone ----------

  /** The best host, the earliest one of equals. */
  ghost predicate BestAt<H>(hosts: seq<Candidate<H>>, i: nat) {
    && i < |hosts| && (forall j :: 0 <= j < |hosts| ==> hosts[j].score <= hosts[i].score)
    && forall j :: 0 <= j < i ==> hosts[j].score < hosts[i].score
  }

  lemma {:induction false} FirstAt<H>(hosts: seq<Candidate<H>>) returns (i: nat)
    requires hosts != []
    ensures BestAt(hosts, i) && First(hosts, Score) == hosts[i]
  {
    i := 0;
    if |hosts| > 1 {
      var k := FirstAt(hosts[1..]);
      assert forall j :: 0 < j < |hosts| ==> hosts[j] == hosts[1..][j - 1];
      i := if hosts[0].score >= hosts[1..][k].score then 0 else k + 1;
    }
  }

  ghost function AtLeast<H>(hosts: seq<Candidate<H>>, limit: int): set<int> {
    set j | 0 <= j < |hosts| && hosts[j].score >= limit
  }

  lemma {:induction false} CountIsSize<H>(hosts: seq<Candidate<H>>, limit: int)
    ensures Count(hosts, Score, limit) == |AtLeast(hosts, limit)|
  {
    if hosts != [] {
      var last := |hosts| - 1;
      assert hosts == hosts[..last] + [hosts[last]];
      CountConcat(hosts[..last], [hosts[last]], Score, limit);
      CountIsSize(hosts[..last], limit);
      var before := AtLeast(hosts[..last], limit);
      assert [hosts[last]][1..] == [];
      assert AtLeast(hosts, limit) == if hosts[last].score >= limit then before + {last} else before;
    }
  }

  lemma {:induction false} PositiveSize<H>(hosts: seq<Candidate<H>>)
    ensures |Positive(hosts)| == Count(hosts, Score, 1)
  {
    if hosts != [] {
      PositiveSize(hosts[1..]);
    }
  }

  lemma RankedSize<H>(hosts: seq<Candidate<H>>)
    ensures var ranked := Rank(Positive(hosts), Score);
            && |ranked| == |AtLeast(hosts, 1)| && Count(ranked, Score, MIN_SCORE) == |AtLeast(hosts, 55)|
            && (ranked == [] ==> forall j :: 0 <= j < |hosts| ==> hosts[j].score <= 0)
            && (ranked != [] ==> hosts != [] && ranked[0] == First(hosts, Score) && ranked[0].score > 0)
  {
    hide Rank, First;
    var positive := Positive(hosts);
    RankFalls(positive, Score);
    PositiveSize(hosts);
    CountIsSize(hosts, 1);
    CountIsSize(hosts, 55);
    CountRank(positive, Score, MIN_SCORE);
    PositiveKeeps(hosts, MIN_SCORE);
    if positive == [] {
      forall j | 0 <= j < |hosts| ensures hosts[j].score <= 0 {
        RankHead(hosts, Score);
        assert hosts[j] in hosts;
      }
    } else {
      RankHead(positive, Score);
      PositiveMembers(hosts);
    }
  }

  /** Another host reaches 55 and is less than 12 behind. */
  ghost predicate Rivalled<H>(hosts: seq<Candidate<H>>, i: nat) {
    && i < |hosts|
    && exists j :: 0 <= j < |hosts| && j != i && hosts[j].score >= 55 && hosts[i].score - hosts[j].score < 12
  }

  /** What `selectHostMatch` returns when some host reaches 55. */
  ghost predicate MatchedTo<H>(hosts: seq<Candidate<H>>, i: nat, m: Match<H>) {
    && BestAt(hosts, i) && hosts[i].score >= 55 && m.score == hosts[i].score && m.host == Some(hosts[i].host)
    && m.status == (if Rivalled(hosts, i) then Ambiguous else Matched)
    && m.syncReady == (hosts[i].syncReady && !Rivalled(hosts, i)) && m.candidates == |AtLeast(hosts, 55)|
  }

  /** What it returns when none does: the best positive score, and how many are positive. */
  ghost predicate MatchedToNone<H>(hosts: seq<Candidate<H>>, m: Match<H>) {
    && (forall j :: 0 <= j < |hosts| ==> hosts[j].score < 55 && hosts[j].score <= m.score)
    && (m.score == 0 || exists j :: 0 <= j < |hosts| && hosts[j].score == m.score) && m.score >= 0
    && m.status == Unmatched && m.host.None? && !m.syncReady && m.candidates == |AtLeast(hosts, 1)|
  }

  lemma SelectionMeans<H>(hosts: seq<Candidate<H>>)
    ensures MatchedToNone(hosts, SelectHost(hosts)) || exists i: nat :: MatchedTo(hosts, i, SelectHost(hosts))
  {
    SelectHostMeans(hosts);
    RankedSize(hosts);
    hide Rank, First, Positive, CloseSecond, Count, AtLeast;
    if hosts != [] {
      var i := FirstAt(hosts);
      if hosts[i].score >= 55 {
        RivalIff(hosts, i);
        assert MatchedTo(hosts, i, SelectHost(hosts));
      }
    }
  }

  lemma RivalIff<H>(hosts: seq<Candidate<H>>, i: nat)
    requires i < |hosts| && hosts[i].score >= 55
    ensures Rivalled(hosts, i) <==> Count(hosts, Score, Limit(hosts[i].score)) >= 2
  {
    hide Count;
    var limit := Limit(hosts[i].score);
    if j :| 0 <= j < |hosts| && j != i && hosts[j].score >= 55 && hosts[i].score - hosts[j].score < 12 {
      CountAtLeast(hosts, Score, limit, i, j);
    } else {
      CountOnly(hosts, Score, limit, i);
    }
  }

  ghost predicate HasHost<H>(hosts: seq<Candidate<H>>) {
    exists i :: 0 <= i < |hosts| && hosts[i].score >= 55
  }

  ghost function WithHost<H>(groups: seq<seq<Candidate<H>>>): set<int> {
    set g | 0 <= g < |groups| && HasHost(groups[g])
  }

  lemma HasHostIff<H>(hosts: seq<Candidate<H>>)
    ensures HasHost(hosts) <==> SelectHost(hosts).status != Unmatched
  {
    hide SelectHost, AtLeast;
    SelectionMeans(hosts);
    if !MatchedToNone(hosts, SelectHost(hosts)) {
      var i: nat :| MatchedTo(hosts, i, SelectHost(hosts));
    }
  }

  lemma {:induction false} MatchesConcat<H>(a: seq<seq<Candidate<H>>>, b: seq<seq<Candidate<H>>>)
    ensures Matches(a + b) == Matches(a) + Matches(b)
  {
    hide SelectHost;
    if a == [] {
      assert a + b == b;
    } else {
      assert (a + b)[1..] == a[1..] + b;
      MatchesConcat(a[1..], b);
    }
  }

  lemma {:induction false} MatchesSize<H>(groups: seq<seq<Candidate<H>>>)
    ensures |Matches(groups)| == |WithHost(groups)|
  {
    hide SelectHost, HasHost;
    if groups != [] {
      var last := |groups| - 1;
      assert groups == groups[..last] + [groups[last]];
      MatchesConcat(groups[..last], [groups[last]]);
      MatchesSize(groups[..last]);
      HasHostIff(groups[last]);
      assert [groups[last]][1..] == [];
      var before := WithHost(groups[..last]);
      assert WithHost(groups) == if HasHost(groups[last]) then before + {last} else before;
    }
  }

  /** Across integrations the candidates are the integrations that have a host of at least 55. */
  lemma AcrossCounts<H>(groups: seq<seq<Candidate<H>>>)
    ensures var m := SelectAcross(groups);
            && m.candidates == |WithHost(groups)| && (m.status == Unmatched ==> m.score == 0)
            && (m.status == Unmatched <==> forall g :: 0 <= g < |groups| ==> !HasHost(groups[g]))
  {
    hide SelectHost, Rank, HasHost;
    RankFalls(Matches(groups), MatchScore);
    MatchesSize(groups);
    if g :| 0 <= g < |groups| && HasHost(groups[g]) {
      assert g in WithHost(groups);
    } else {
      assert WithHost(groups) == {};
    }
  }

  // ---------- the loops over integrations and units ----------

  /** The candidates of one unit in every integration that answered. */
  function GroupsFor<H>(unit: string, hosts: seq<seq<H>>, rate: (string, H) -> Candidate<H>): seq<seq<Candidate<H>>> {
    seq(|hosts|, i requires 0 <= i < |hosts| => RateAll(unit, hosts[i], rate))
  }

  function RateAll<H>(unit: string, hosts: seq<H>, rate: (string, H) -> Candidate<H>): seq<Candidate<H>> {
    seq(|hosts|, i requires 0 <= i < |hosts| => rate(unit, hosts[i]))
  }

  /** The match of each integration, unmatched ones included. */
  function MatchEach<H>(groups: seq<seq<Candidate<H>>>): seq<Match<H>> {
    seq(|groups|, i requires 0 <= i < |groups| => SelectHost(groups[i]))
  }

  function Found<H>(matches: seq<Match<H>>): seq<Match<H>> {
    if matches == [] then [] else (if matches[0].status != Unmatched then [matches[0]] else []) + Found(matches[1..])
  }

  lemma {:induction false} FoundIsMatches<H>(groups: seq<seq<Candidate<H>>>)
    ensures Found(MatchEach(groups)) == Matches(groups)
  {
    hide SelectHost;
    if groups != [] {
      assert MatchEach(groups)[1..] == MatchEach(groups[1..]);
      FoundIsMatches(groups[1..]);
    }
  }

  ghost predicate Collected<H>(byUnit: map<string, seq<Match<H>>>, u: string, hosts: seq<seq<H>>,
                               rate: (string, H) -> Candidate<H>) {
    u in byUnit && byUnit[u] == MatchEach(GroupsFor(u, hosts, rate))
  }

  lemma CollectOne<H>(byUnit: map<string, seq<Match<H>>>, u: string, hosts: seq<seq<H>>, n: nat,
                      rate: (string, H) -> Candidate<H>)
    requires n < |hosts| && Collected(byUnit, u, hosts[..n], rate)
    ensures byUnit[u] + [SelectHost(RateAll(u, hosts[n], rate))] == MatchEach(GroupsFor(u, hosts[..n + 1], rate))
  {
    hide SelectHost, RateAll;
  }

  /** One answered integration: match every unit against its hosts and append the result. */
  method AddIntegration<H>(units: seq<string>, hosts: seq<seq<H>>, n: nat, rate: (string, H) -> Candidate<H>,
                           before: map<string, seq<Match<H>>>)
    returns (byUnit: map<string, seq<Match<H>>>)
    requires n < |hosts| && forall i, j :: 0 <= i < j < |units| ==> units[i] != units[j]
    requires forall j :: 0 <= j < |units| ==> Collected(before, units[j], hosts[..n], rate)
    ensures forall j :: 0 <= j < |units| ==> Collected(byUnit, units[j], hosts[..n + 1], rate)
  {
    hide SelectHost, RateAll, MatchEach, GroupsFor;
    byUnit := before;
    var k := 0;
    while k < |units|
      invariant 0 <= k <= |units|
      invariant forall j :: 0 <= j < k ==> Collected(byUnit, units[j], hosts[..n + 1], rate)
      invariant forall j :: k <= j < |units| ==> Collected(byUnit, units[j], hosts[..n], rate)
    {
      var unit := units[k];
      var found := SelectHost(RateAll(unit, hosts[n], rate));
      CollectOne(byUnit, unit, hosts, n, rate);
      byUnit := byUnit[unit := byUnit[unit] + [found]];
      k := k + 1;
    }
  }

  /** The loops of `getZabbixUnitHostTelemetry`: a match per integration and unit, then one selection per unit. */
  method SelectForUnits<H>(units: seq<string>, hosts: seq<seq<H>>, rate: (string, H) -> Candidate<H>)
    returns (selected: map<string, Match<H>>)
    requires forall i, j :: 0 <= i < j < |units| ==> units[i] != units[j]
    ensures forall u :: u in selected <==> u in units
    ensures forall u :: u in units ==> selected[u] == SelectAcross(GroupsFor(u, hosts, rate))
  {
    hide SelectHost, SelectAmong, Matches, MatchEach, Found;
    var byUnit: map<string, seq<Match<H>>> := map u | u in units :: [];
    forall j | 0 <= j < |units| ensures Collected(byUnit, units[j], hosts[..0], rate) {
      MatchEachNone(GroupsFor(units[j], hosts[..0], rate));
    }
    var n := 0;
    while n < |hosts|
      invariant 0 <= n <= |hosts|
      invariant forall j :: 0 <= j < |units| ==> Collected(byUnit, units[j], hosts[..n], rate)
    {
      byUnit := AddIntegration(units, hosts, n, rate, byUnit);
      n := n + 1;
    }
    assert hosts[..n] == hosts;
    selected := map[];
    var k := 0;
    while k < |units|
      invariant 0 <= k <= |units|
      invariant forall u :: u in selected <==> u in units[..k]
      invariant forall j :: 0 <= j < k ==>
                  units[j] in selected && selected[units[j]] == SelectAcross(GroupsFor(units[j], hosts, rate))
    {
      FoundIsMatches(GroupsFor(units[k], hosts, rate));
      assert Collected(byUnit, units[k], hosts[..n], rate);
      selected := selected[units[k] := SelectAmong(Found(byUnit[units[k]]))];
      assert units[..k + 1] == units[..k] + [units[k]];
      k := k + 1;
    }
    assert units[..k] == units;
  }

  lemma MatchEachNone<H>(groups: seq<seq<Candidate<H>>>)
    requires groups == []
    ensures MatchEach(groups) == []
  {
  }
}
