/**
 The traffic integral of a report series: `reportTrafficBits` in
 apps/api/src/integrations/integrations.service.ts, over exact reals and millisecond clocks.
 */
module Traffic {
  import opened Options
  import opened Ranking

  /** A report point: an unparsable time stamp and a missing value are None. */
  datatype Point = Point(clock: Option<int>, value: Option<real>)

  datatype Sample = Sample(clock: int, value: real)

  datatype Totals = Totals(bits: Option<real>, coveredSeconds: real)

  function Samples(points: seq<Point>): seq<Sample> {
    if points == [] then []
    else
      var p, rest := points[0], Samples(points[1..]);
      if p.clock.Some? && p.value.Some? then [Sample(p.clock.value, p.value.value)] + rest else rest
  }

  function Earliness(s: Sample): int {
    -s.clock
  }

  function Sorted(points: seq<Point>): seq<Sample> {
    Rank(Samples(points), Earliness)
  }

  function Seconds(a: Sample, b: Sample): real {
    (b.clock - a.clock) as real / 1000.0
  }

  /** One trapezoid; a step that does not move forward in time counts nothing. */
  function Area(a: Sample, b: Sample): real {
    if Seconds(a, b) <= 0.0 then 0.0 else (a.value + b.value) / 2.0 * Seconds(a, b)
  }

  function Width(a: Sample, b: Sample): real {
    if Seconds(a, b) <= 0.0 then 0.0 else Seconds(a, b)
  }

  function Bits(s: seq<Sample>): real {
    if |s| < 2 then 0.0 else Bits(s[..|s| - 1]) + Area(s[|s| - 2], s[|s| - 1])
  }

  function Covered(s: seq<Sample>): real {
    if |s| < 2 then 0.0 else Covered(s[..|s| - 1]) + Width(s[|s| - 2], s[|s| - 1])
  }

  function TotalsOf(s: seq<Sample>): Totals {
    Totals(if Covered(s) > 0.0 then Some(Bits(s)) else None, Covered(s))
  }

  method ReportTrafficBits(points: seq<Point>) returns (totals: Totals)
    ensures totals == TotalsOf(Sorted(points))
  {
    var clean := Sorted(points);
    if |clean| < 2 {
      return Totals(None, 0.0);
    }
    var bits, coveredSeconds := 0.0, 0.0;
    var index := 1;
    while index < |clean|
      invariant 1 <= index <= |clean|
      invariant bits == Bits(clean[..index]) && coveredSeconds == Covered(clean[..index])
    {
      var previous, current := clean[index - 1], clean[index];
      var seconds := (current.clock - previous.clock) as real / 1000.0;
      assert clean[..index + 1][..index] == clean[..index];
      if seconds > 0.0 {
        bits := bits + (previous.value + current.value) / 2.0 * seconds;
        coveredSeconds := coveredSeconds + seconds;
      }
      index := index + 1;
    }
    assert clean[..index] == clean;
    totals := Totals(if coveredSeconds > 0.0 then Some(bits) else None, coveredSeconds);
  }

  // ---------- main results ----------

  ghost predicate InTime(s: seq<Sample>) {
    forall i, j :: 0 <= i < j < |s| ==> s[i].clock <= s[j].clock
  }

  lemma SortedInTime(points: seq<Point>)
    ensures InTime(Sorted(points)) && multiset(Sorted(points)) == multiset(Samples(points))
  {
    RankFalls(Samples(points), Earliness);
    var s := Sorted(points);
    forall i, j | 0 <= i < j < |s| ensures s[i].clock <= s[j].clock {
      assert Earliness(s[i]) >= Earliness(s[j]);
    }
  }

  /** The covered time is the span from the first to the last sample, even with repeated time stamps. */
  lemma {:induction false} CoveredTelescopes(s: seq<Sample>)
    requires InTime(s) && s != []
    ensures Covered(s) == Seconds(s[0], s[|s| - 1])
  {
    if |s| > 1 {
      CoveredTelescopes(s[..|s| - 1]);
    }
  }

  /** Splitting a series at a sample splits its integral. */
  lemma {:induction false} BitsAdditive(a: seq<Sample>, x: Sample, b: seq<Sample>)
    ensures Bits(a + [x] + b) == Bits(a + [x]) + Bits([x] + b)
    ensures Covered(a + [x] + b) == Covered(a + [x]) + Covered([x] + b)
    decreases |b|
  {
    var all, right := a + [x] + b, [x] + b;
    if b == [] {
      assert all == a + [x] && right == [x];
    } else {
      var init := b[..|b| - 1];
      BitsAdditive(a, x, init);
      assert all[..|all| - 1] == a + [x] + init && right[..|right| - 1] == [x] + init;
      assert all[|all| - 2] == right[|right| - 2] && all[|all| - 1] == right[|right| - 1];
    }
  }

  lemma MulBetween(low: real, v: real, high: real, w: real)
    requires low <= v <= high && w >= 0.0
    ensures low * w <= v * w <= high * w
  {
  }

  lemma AreaBetween(a: Sample, b: Sample, low: real, high: real)
    requires low <= a.value <= high && low <= b.value <= high
    ensures low * Width(a, b) <= Area(a, b) <= high * Width(a, b)
  {
    MulBetween(low, (a.value + b.value) / 2.0, high, Width(a, b));
  }

  /** The integral lies between the least and the greatest value times the covered time. */
  lemma {:induction false} BitsBetween(s: seq<Sample>, low: real, high: real)
    requires forall i :: 0 <= i < |s| ==> low <= s[i].value <= high
    ensures low * Covered(s) <= Bits(s) <= high * Covered(s) && Covered(s) >= 0.0
  {
    hide Area, Width;
    if |s| >= 2 {
      var init, a, b := s[..|s| - 1], s[|s| - 2], s[|s| - 1];
      BitsBetween(init, low, high);
      AreaBetween(a, b, low, high);
      WidthNonnegative(a, b);
      MulDistributes(low, Covered(init), Width(a, b));
      MulDistributes(high, Covered(init), Width(a, b));
    } else {
      MulZero(low);
      MulZero(high);
    }
  }

  lemma WidthNonnegative(a: Sample, b: Sample)
    ensures Width(a, b) >= 0.0
  {
  }

  lemma MulDistributes(c: real, x: real, y: real)
    ensures c * (x + y) == c * x + c * y
  {
  }

  lemma MulZero(c: real)
    ensures c * 0.0 == 0.0
  {
  }

  ghost predicate Spread(s: seq<Sample>) {
    exists x, y :: x in s && y in s && x.clock != y.clock
  }

  lemma CoveredPositiveIff(s: seq<Sample>)
    requires InTime(s)
    ensures Covered(s) > 0.0 <==> Spread(s)
  {
    hide Covered;
    if s == [] {
      CoveredNothing();
    } else {
      CoveredTelescopes(s);
      if Covered(s) > 0.0 {
        assert s[0] in s && s[|s| - 1] in s && s[0].clock != s[|s| - 1].clock;
      }
      forall x | x in s ensures s[0].clock <= x.clock <= s[|s| - 1].clock {
        var i :| 0 <= i < |s| && s[i] == x;
      }
    }
  }

  lemma CoveredNothing()
    ensures Covered([]) == 0.0
  {
  }

  lemma SpreadOrderFree(a: seq<Sample>, b: seq<Sample>)
    requires multiset(a) == multiset(b)
    ensures Spread(a) <==> Spread(b)
  {
    assert forall x :: x in a <==> x in multiset(a);
    assert forall x :: x in b <==> x in multiset(b);
  }

  /** Totals are reported exactly when two samples have different time stamps. */
  lemma TotalsPresentIff(points: seq<Point>)
    ensures TotalsOf(Sorted(points)).bits.Some? <==> Spread(Samples(points))
  {
    hide Sorted, Samples, Covered, Bits, Spread;
    SortedInTime(points);
    CoveredPositiveIff(Sorted(points));
    SpreadOrderFree(Sorted(points), Samples(points));
  }

  /** Equal time stamps carry equal values. */
  ghost predicate NoConflicts(points: seq<Point>) {
    forall x, y :: x in Samples(points) && y in Samples(points) && x.clock == y.clock ==> x == y
  }

  /** The result does not depend on the order of the points, unless one instant carries two values. */
  lemma OrderFree(a: seq<Point>, b: seq<Point>)
    requires multiset(Samples(a)) == multiset(Samples(b)) && NoConflicts(a)
    ensures TotalsOf(Sorted(a)) == TotalsOf(Sorted(b))
  {
    assert TieFree(Samples(a), Earliness);
    RankOrderFree(Samples(a), Samples(b), Earliness);
  }

  /**
   Two samples of one instant between an earlier and a later sample: swapping them changes the
   integral by half the difference of their values times the difference of the neighbouring gaps.
   */
  lemma TieSwapEffect(pre: seq<Sample>, a: Sample, x: Sample, y: Sample, d: Sample, post: seq<Sample>)
    requires a.clock < x.clock == y.clock < d.clock
    ensures Bits(pre + [a] + [x, y] + [d] + post) - Bits(pre + [a] + [y, x] + [d] + post)
         == (x.value - y.value) * (Seconds(a, x) - Seconds(x, d)) / 2.0
  {
    Around(pre, a, [x, y], d, post);
    Around(pre, a, [y, x], d, post);
    FourBits(a, x, y, d);
    FourBits(a, y, x, d);
    var s, t := Seconds(a, x), Seconds(x, d);
    assert (a.value + x.value) / 2.0 * s + (y.value + d.value) / 2.0 * t
           - ((a.value + y.value) / 2.0 * s + (x.value + d.value) / 2.0 * t)
        == (x.value - y.value) * (s - t) / 2.0;
  }

  lemma Around(pre: seq<Sample>, a: Sample, mid: seq<Sample>, d: Sample, post: seq<Sample>)
    ensures Bits(pre + [a] + mid + [d] + post) == Bits(pre + [a]) + Bits([a] + mid + [d]) + Bits([d] + post)
  {
    BitsAdditive(pre + [a] + mid, d, post);
    BitsAdditive(pre, a, mid + [d]);
    assert pre + [a] + (mid + [d]) == pre + [a] + mid + [d];
    assert [a] + (mid + [d]) == [a] + mid + [d];
  }

  lemma FourBits(a: Sample, x: Sample, y: Sample, d: Sample)
    requires a.clock < x.clock == y.clock < d.clock
    ensures Bits([a] + [x, y] + [d])
         == (a.value + x.value) / 2.0 * Seconds(a, x) + (y.value + d.value) / 2.0 * Seconds(x, d)
  {
    var s := [a] + [x, y] + [d];
    assert s[..3] == [a, x, y] && s[..3][..2] == [a, x] && s[..3][..2][..1] == [a];
    assert Bits([a, x]) == Area(a, x);
    assert Bits([a, x, y]) == Area(a, x) + Area(x, y);
  }

  // ---------- exactly when the order of the points matters ----------

  function Swapped<T>(s: seq<T>, i: nat, j: nat): (t: seq<T>)
    requires i < |s| && j < |s|
    ensures |t| == |s|
  {
    s[i := s[j]][j := s[i]]
  }

  function GapBefore(s: seq<Sample>, k: nat): real
    requires k < |s|
  {
    if k == 0 then 0.0 else Width(s[k - 1], s[k])
  }

  function GapAfter(s: seq<Sample>, k: nat): real
    requires k < |s|
  {
    if k == |s| - 1 then 0.0 else Width(s[k], s[k + 1])
  }

  /** The time from the sample before to the sample after: twice the weight of the sample's value. */
  function Reach(s: seq<Sample>, k: nat): real
    requires k < |s|
  {
    GapBefore(s, k) + GapAfter(s, k)
  }

  /** Two samples of one instant have the same value, or reach equally far. */
  ghost predicate Settled(s: seq<Sample>) {
    forall i, j :: 0 <= i < |s| && 0 <= j < |s| && s[i].clock == s[j].clock ==>
      s[i].value == s[j].value || Reach(s, i) == Reach(s, j)
  }

  lemma AreaGrows(a: Sample, b: Sample, x: Sample)
    requires x.clock == b.clock
    ensures Area(a, x) - Area(a, b) == (x.value - b.value) * Width(a, b) / 2.0
    ensures Area(x, a) - Area(b, a) == (x.value - b.value) * Width(b, a) / 2.0
  {
    Halves(a.value, x.value, b.value, Width(a, b));
    Halves(a.value, x.value, b.value, Width(b, a));
  }

  lemma Halves(c: real, x: real, y: real, w: real)
    ensures (c + x) / 2.0 * w - (c + y) / 2.0 * w == (x - y) * w / 2.0
    ensures (x + c) / 2.0 * w - (y + c) / 2.0 * w == (x - y) * w / 2.0
  {
  }

  lemma LastValueEffect(s: seq<Sample>, x: Sample)
    requires |s| > 1 && x.clock == s[|s| - 1].clock
    ensures Bits(s[|s| - 1 := x]) - Bits(s) == (x.value - s[|s| - 1].value) * Reach(s, |s| - 1) / 2.0
  {
    hide Area, Width;
    var last, t := |s| - 1, s[|s| - 1 := x];
    AreaGrows(s[last - 1], s[last], x);
    assert t[..last] == s[..last];
    assert Bits(t) == Bits(s[..last]) + Area(s[last - 1], x);
    assert Reach(s, last) == Width(s[last - 1], s[last]);
  }

  lemma EarlierReach(s: seq<Sample>, k: nat)
    requires k < |s| - 2
    ensures Reach(s[..|s| - 1], k) == Reach(s, k)
  {
  }

  /** Another value at one position changes the integral by the difference times half the reach. */
  lemma {:induction false} ValueEffect(s: seq<Sample>, k: nat, x: Sample)
    requires k < |s| && x.clock == s[k].clock
    ensures Bits(s[k := x]) - Bits(s) == (x.value - s[k].value) * Reach(s, k) / 2.0
  {
    hide Area, Width;
    var last, t := |s| - 1, s[k := x];
    var c := x.value - s[k].value;
    if last == 0 {
      MulZero(c);
    } else {
      var a, b := s[last - 1], s[last];
      if k < last {
        ValueEffect(s[..last], k, x);
        assert t[..last] == s[..last][k := x];
        if k == last - 1 {
          AreaGrows(b, a, x);
          MulDistributes(c, GapBefore(s, k), Width(a, b));
          assert Reach(s[..last], k) == GapBefore(s, k);
        } else {
          EarlierReach(s, k);
          assert Bits(t) == Bits(t[..last]) + Area(a, b);
        }
      } else {
        LastValueEffect(s, x);
      }
    }
  }

  lemma SameReach(s: seq<Sample>, k: nat, x: Sample, i: nat)
    requires k < |s| && i < |s| && x.clock == s[k].clock
    ensures Reach(s[k := x], i) == Reach(s, i)
  {
  }

  /** Swapping two samples of one instant, wherever they stand, changes the integral by exactly this amount. */
  lemma SwapEffect(s: seq<Sample>, i: nat, j: nat)
    requires i < |s| && j < |s| && s[i].clock == s[j].clock
    ensures Bits(Swapped(s, i, j)) - Bits(s) == (s[j].value - s[i].value) * (Reach(s, i) - Reach(s, j)) / 2.0
  {
    hide Bits, Reach;
    var mid := s[i := s[j]];
    ValueEffect(s, i, s[j]);
    ValueEffect(mid, j, s[i]);
    SameReach(s, i, s[j], j);
    if i != j {
      Differences(s[j].value - s[i].value, Reach(s, i), Reach(s, j));
    }
  }

  lemma Differences(c: real, p: real, q: real)
    ensures c * p / 2.0 - c * q / 2.0 == c * (p - q) / 2.0
    ensures c * p / 2.0 + (-c) * q / 2.0 == c * (p - q) / 2.0
  {
  }

  lemma SwapKeeps(s: seq<Sample>, i: nat, j: nat)
    requires i < |s| && j < |s| && s[i].clock == s[j].clock && InTime(s)
    ensures InTime(Swapped(s, i, j)) && multiset(Swapped(s, i, j)) == multiset(s)
  {
  }

  lemma SwapReaches(s: seq<Sample>, i: nat, j: nat, k: nat)
    requires i < |s| && j < |s| && s[i].clock == s[j].clock && k < |s|
    ensures Reach(Swapped(s, i, j), k) == Reach(s, k)
  {
    hide Reach;
    SameReach(s, i, s[j], k);
    SameReach(s[i := s[j]], j, s[i], k);
  }

  /** A swap of a settled list changes nothing, and leaves no other swap that would. */
  lemma SwapSettled(s: seq<Sample>, i: nat, j: nat)
    requires i < |s| && j < |s| && s[i].clock == s[j].clock && Settled(s)
    ensures Settled(Swapped(s, i, j)) && Bits(Swapped(s, i, j)) == Bits(s)
  {
    hide Reach, Bits;
    var t := Swapped(s, i, j);
    forall m, n | 0 <= m < |s| && 0 <= n < |s| && t[m].clock == t[n].clock
      ensures t[m].value == t[n].value || Reach(t, m) == Reach(t, n)
    {
      SwapReaches(s, i, j, m);
      SwapReaches(s, i, j, n);
    }
    SwapEffect(s, i, j);
    ZeroProduct(s[j].value - s[i].value, Reach(s, i) - Reach(s, j));
  }

  lemma ZeroProduct(x: real, y: real)
    requires x == 0.0 || y == 0.0
    ensures x * y / 2.0 == 0.0
  {
  }

  lemma TimesAgree(s: seq<Sample>, t: seq<Sample>, k: nat)
    requires InTime(s) && InTime(t) && multiset(s) == multiset(t) && k < |s| == |t| && s[..k] == t[..k]
    ensures s[k].clock == t[k].clock && exists j :: k <= j < |s| && s[j] == t[k]
  {
    hide InTime;
    var j := Among(s, t, k);
    var i := Among(t, s, k);
    NotBefore(s, k, j);
    NotBefore(t, k, i);
  }

  lemma NotBefore(s: seq<Sample>, k: nat, j: nat)
    requires InTime(s) && k <= j < |s|
    ensures s[k].clock <= s[j].clock
  {
  }

  /** What comes next in one order is still to come in the other. */
  lemma Among<T>(s: seq<T>, t: seq<T>, k: nat) returns (j: nat)
    requires multiset(s) == multiset(t) && k < |s| == |t| && s[..k] == t[..k]
    ensures k <= j < |s| && s[j] == t[k]
  {
    SuffixBag(s, k);
    SuffixBag(t, k);
    assert t[k..][0] in multiset(t[k..]);
    assert t[k] in s[k..];
    var i :| 0 <= i < |s[k..]| && s[k..][i] == t[k];
    j := k + i;
  }

  lemma SuffixBag<T>(s: seq<T>, k: nat)
    requires k <= |s|
    ensures multiset(s[k..]) == multiset(s) - multiset(s[..k])
  {
    assert s == s[..k] + s[k..];
  }

  /**
   While the list is settled, one swap after the other brings it into any other order of time without changing
   the integral.
   */
  lemma {:induction false} SettledIsOrderFree(s: seq<Sample>, t: seq<Sample>, k: nat)
    requires InTime(s) && InTime(t) && multiset(s) == multiset(t) && Settled(s)
    requires k <= |s| == |t| && s[..k] == t[..k]
    ensures Bits(s) == Bits(t)
    decreases |s| - k
  {
    hide Bits, Reach, Settled;
    if k == |s| {
      assert s == s[..k] && t == t[..k];
    } else {
      TimesAgree(s, t, k);
      var j :| k <= j < |s| && s[j] == t[k];
      SwapKeeps(s, k, j);
      SwapSettled(s, k, j);
      var next := Swapped(s, k, j);
      assert next[..k] == s[..k];
      assert next[..k + 1] == next[..k] + [t[k]] && t[..k + 1] == t[..k] + [t[k]];
      SettledIsOrderFree(next, t, k + 1);
    }
  }

  lemma SpanAgrees(s: seq<Sample>, t: seq<Sample>)
    requires InTime(s) && InTime(t) && multiset(s) == multiset(t)
    ensures Covered(s) == Covered(t)
  {
    hide Covered;
    assert |s| == |multiset(s)| == |multiset(t)| == |t|;
    if s != [] {
      CoveredTelescopes(s);
      CoveredTelescopes(t);
      assert forall x :: x in s <==> x in multiset(s);
      assert forall x :: x in t <==> x in multiset(t);
      assert s[0] in t && t[0] in s && s[|s| - 1] in t && t[|s| - 1] in s;
    }
  }

  function AsPoints(s: seq<Sample>): seq<Point> {
    if s == [] then [] else [Point(Some(s[0].clock), Some(s[0].value))] + AsPoints(s[1..])
  }

  lemma {:induction false} AsPointsSorted(s: seq<Sample>)
    requires InTime(s)
    ensures Samples(AsPoints(s)) == s && Sorted(AsPoints(s)) == s
  {
    if s != [] {
      AsPointsSorted(s[1..]);
      assert AsPoints(s)[1..] == AsPoints(s[1..]);
      assert [Sample(s[0].clock, s[0].value)] + s[1..] == s;
    }
  }

  /** A value that reaches differently in two places of one instant makes the order of the points matter. */
  lemma UnsettledMatters(s: seq<Sample>, i: nat, j: nat) returns (other: seq<Point>)
    requires InTime(s) && i < |s| && j < |s| && s[i].clock == s[j].clock
    requires s[i].value != s[j].value && Reach(s, i) != Reach(s, j)
    ensures multiset(Samples(other)) == multiset(s) && TotalsOf(Sorted(other)) != TotalsOf(s)
  {
    hide Bits, Covered, Sorted, Samples, Reach, AsPoints, InTime, Spread;
    var t := Swapped(s, i, j);
    SwapKeeps(s, i, j);
    SwapEffect(s, i, j);
    NonzeroProduct(s[j].value - s[i].value, Reach(s, i) - Reach(s, j));
    SpanAgrees(s, t);
    other := AsPoints(t);
    AsPointsSorted(t);
    ReachIsSpan(s, if Reach(s, i) != 0.0 then i else j);
    CoveredPositiveIff(s);
  }

  lemma NonzeroProduct(x: real, y: real)
    requires x != 0.0 && y != 0.0
    ensures x * y / 2.0 != 0.0
  {
  }

  lemma ReachIsSpan(s: seq<Sample>, k: nat)
    requires k < |s| && Reach(s, k) != 0.0
    ensures Spread(s)
  {
    assert s[k] in s && (k > 0 ==> s[k - 1] in s) && (k < |s| - 1 ==> s[k + 1] in s);
  }

  /**
   The totals of a report do not depend on the order of its points if and only if any two samples of one
   instant have the same value, or the same time from the sample before to the sample after.
   */
  lemma OrderFreeIff(points: seq<Point>)
    ensures Settled(Sorted(points))
        <==> forall other :: multiset(Samples(other)) == multiset(Samples(points)) ==>
               TotalsOf(Sorted(other)) == TotalsOf(Sorted(points))
  {
    hide Sorted, Samples, Bits, Covered, Reach, InTime;
    var s := Sorted(points);
    SortedInTime(points);
    if Settled(s) {
      forall other | multiset(Samples(other)) == multiset(Samples(points))
        ensures TotalsOf(Sorted(other)) == TotalsOf(s)
      {
        SortedInTime(other);
        SpanAgrees(s, Sorted(other));
        assert |s| == |multiset(s)| == |multiset(Sorted(other))| == |Sorted(other)|;
        SettledIsOrderFree(s, Sorted(other), 0);
      }
    } else {
      var i, j :| 0 <= i < |s| && 0 <= j < |s| && s[i].clock == s[j].clock
          && s[i].value != s[j].value && Reach(s, i) != Reach(s, j);
      var other := UnsettledMatters(s, i, j);
    }
  }

  // ---------- consumption of both directions ----------

  datatype Series = Series(kind: string, points: seq<Point>, avg: Option<real>, max: Option<real>)

  datatype Consumption = Consumption(
    receivedBytes: Option<real>, sentBytes: Option<real>, totalBytes: Option<real>,
    avgReceive: Option<real>, avgSend: Option<real>, peakReceive: Option<real>, peakSend: Option<real>,
        coveredSeconds: real)

  const RECEIVED := "trafficIn"
  const SENT := "trafficOut"

  function FirstOfKind(series: seq<Series>, kind: string): Option<Series> {
    if series == [] then None
    else if series[0].kind == kind then Some(series[0])
    else FirstOfKind(series[1..], kind)
  }

  function TotalsFor(series: Option<Series>): Totals {
    if series.Some? then TotalsOf(Sorted(series.value.points)) else Totals(None, 0.0)
  }

  function Bytes(bits: Option<real>): Option<real> {
    if bits.Some? then Some(bits.value / 8.0) else None
  }

  function OrZero(value: Option<real>): real {
    if value.Some? then value.value else 0.0
  }

  /** `reportTrafficConsumption`. */
  function ConsumptionOf(series: seq<Series>): Consumption {
    var received, sent := FirstOfKind(series, RECEIVED), FirstOfKind(series, SENT);
    var receivedTraffic, sentTraffic := TotalsFor(received), TotalsFor(sent);
    var totalBits := if receivedTraffic.bits.None? && sentTraffic.bits.None? then None
                     else Some(OrZero(receivedTraffic.bits) + OrZero(sentTraffic.bits));
    Consumption(
      Bytes(receivedTraffic.bits), Bytes(sentTraffic.bits), Bytes(totalBits),
      if received.Some? then received.value.avg else None, if sent.Some? then sent.value.avg else None,
      if received.Some? then received.value.max else None, if sent.Some? then sent.value.max else None,
      if receivedTraffic.coveredSeconds >= sentTraffic.coveredSeconds then receivedTraffic.coveredSeconds
      else sentTraffic.coveredSeconds)
  }

  /** A direction was measured when its first series has samples at two different times. */
  ghost predicate Measured(series: seq<Series>, kind: string) {
    FirstOfKind(series, kind).Some? && Spread(Samples(FirstOfKind(series, kind).value.points))
  }

  lemma MeasuredIff(series: seq<Series>, kind: string)
    ensures TotalsFor(FirstOfKind(series, kind)).bits.Some? <==> Measured(series, kind)
  {
    hide Sorted, Samples, Spread, Covered, Bits;
    if FirstOfKind(series, kind).Some? {
      TotalsPresentIff(FirstOfKind(series, kind).value.points);
    }
  }

  /** Both directions add up, and each byte count is there exactly when its direction was measured. */
  lemma ConsumptionAddsUp(series: seq<Series>)
    ensures var c := ConsumptionOf(series);
            && (c.receivedBytes.Some? <==> Measured(series, RECEIVED))
            && (c.sentBytes.Some? <==> Measured(series, SENT))
            && (c.totalBytes.Some? <==> Measured(series, RECEIVED) || Measured(series, SENT))
            && OrZero(c.totalBytes) == OrZero(c.receivedBytes) + OrZero(c.sentBytes)
  {
    hide Measured, TotalsFor, FirstOfKind;
    MeasuredIff(series, RECEIVED);
    MeasuredIff(series, SENT);
  }

  lemma {:induction false} FirstOfKindStays(series: seq<Series>, extra: Series, rest: seq<Series>, kind: string)
    requires extra.kind == kind ==> FirstOfKind(series, kind).Some?
    ensures FirstOfKind(series + [extra] + rest, kind) == FirstOfKind(series + rest, kind)
  {
    if series == [] {
      assert [] + [extra] + rest == [extra] + rest && ([extra] + rest)[1..] == rest && [] + rest == rest;
    } else {
      assert (series + [extra] + rest)[1..] == series[1..] + [extra] + rest
          && (series + rest)[1..] == series[1..] + rest;
      if series[0].kind != kind {
        FirstOfKindStays(series[1..], extra, rest, kind);
      }
    }
  }

  /** Series of other kinds, and later series of a kind already seen, do not count. */
  lemma OtherSeriesDoNotCount(series: seq<Series>, extra: Series, rest: seq<Series>)
    requires extra.kind in {RECEIVED, SENT} ==> FirstOfKind(series, extra.kind).Some?
    ensures ConsumptionOf(series + [extra] + rest) == ConsumptionOf(series + rest)
  {
    hide FirstOfKind, TotalsFor;
    FirstOfKindStays(series, extra, rest, RECEIVED);
    FirstOfKindStays(series, extra, rest, SENT);
  }
}
