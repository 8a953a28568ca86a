/**
 The two thinning algorithms for report series: `slimReportPoints` in
 apps/api/src/integrations/integrations.service.ts and `slimPoints` in
 apps/api/src/monitoring/report-presentation.service.ts, with exact rational steps.
 */
module Thinning {
  import opened Options

  // ---------- even sampling ----------

  function Divisor(maxPoints: nat): nat {
    if maxPoints <= 2 then 1 else maxPoints - 1
  }

  /** `Math.round(sample * step)` for the exact step, capped at the last index. */
  function SampleIndex(n: nat, maxPoints: nat, sample: nat): (index: nat)
    requires n > 0
    ensures index < n
  {
    var d := Divisor(maxPoints);
    var rounded := (2 * (sample * (n - 1)) + d) / (2 * d);
    if rounded <= n - 1 then rounded else n - 1
  }

  /** Two neighbouring multiples of a step round to indices whose distance is the step rounded down or up. */
  lemma RoundGap(k: nat, n: nat, d: nat)
    requires d > 0
    ensures var here, next := (2 * (k * n) + d) / (2 * d), (2 * ((k + 1) * n) + d) / (2 * d);
            n / d <= next - here <= (n + d - 1) / d
  {
    var a, b, c := 2 * (k * n) + d, 2 * ((k + 1) * n) + d, 2 * d;
    assert (k + 1) * n == k * n + n;
    var q, r := a / c, b / c;
    assert c * q <= a < c * q + c && c * r <= b < c * r + c;
    var g := r - q;
    assert c * g == c * r - c * q;
    assert 2 * (d * g) == c * g;
    assert d * g - d < n < d * g + d;
    FloorBelow(n, d, g);
    CeilAbove(n, d, g);
  }

  lemma MulNonnegative(a: nat, b: nat)
    ensures a * b >= 0
  {
  }

  lemma MulOrder(c: nat, x: int, y: int)
    ensures x < y ==> c * x + c <= c * y
  {
    if x < y {
      MulNonnegative(c, y - x - 1);
      assert c * (y - x - 1) == c * y - c * x - c;
    }
  }

  lemma FloorBelow(n: int, d: nat, g: int)
    requires d > 0 && n < d * g + d
    ensures n / d <= g
  {
    MulOrder(d, g, n / d);
  }

  lemma CeilAbove(n: int, d: nat, g: int)
    requires d > 0 && d * g - d < n
    ensures g <= (n + d - 1) / d
  {
    MulOrder(d, (n + d - 1) / d, g);
  }

  lemma RoundEnds(n: nat, d: nat)
    requires d > 0
    ensures (2 * (0 * n) + d) / (2 * d) == 0 && (2 * (d * n) + d) / (2 * d) == n
  {
    assert 2 * (d * n) == (2 * d) * n;
    DivExact(2 * d, n, d);
    DivExact(2 * d, 0, d);
  }

  lemma DivExact(c: nat, q: int, r: nat)
    requires r < c
    ensures (c * q + r) / c == q
  {
    var x := (c * q + r) / c;
    MulOrder(c, x, q);
    MulOrder(c, q, x);
  }

  /** The source's index loop as a function: one index per sample. */
  function Slim<T>(points: seq<T>, maxPoints: nat): seq<T> {
    if |points| <= maxPoints then points
    else if maxPoints >= 2 then
      seq(maxPoints, k requires 0 <= k < maxPoints => points[SampleIndex(|points|, maxPoints, k)])
    else
      (if maxPoints == 1 then [points[0]] else []) + [points[|points| - 1]]
  }

  /** Sampled indices start at 0, end at the last point, and step by the exact step rounded down or up. */
  lemma SampleSteps(n: nat, maxPoints: nat, k: nat)
    requires n > maxPoints >= 2 && k < maxPoints - 1
    ensures SampleIndex(n, maxPoints, 0) == 0 && SampleIndex(n, maxPoints, maxPoints - 1) == n - 1
    ensures var gap := SampleIndex(n, maxPoints, k + 1) - SampleIndex(n, maxPoints, k);
            1 <= (n - 1) / (maxPoints - 1) <= gap <= (n - 1 + maxPoints - 2) / (maxPoints - 1)
  {
    var d := maxPoints - 1;
    assert d == Divisor(maxPoints);
    RoundEnds(n - 1, d);
    RoundGap(k, n - 1, d);
    SampleUncapped(n, maxPoints, k);
    SampleUncapped(n, maxPoints, k + 1);
    MulOrder(d, (n - 1) / d, 1);
  }

  /** Rounding never passes the last index, so the cap never acts. */
  lemma SampleUncapped(n: nat, maxPoints: nat, k: nat)
    requires n > maxPoints >= 2 && k <= maxPoints - 1
    ensures SampleIndex(n, maxPoints, k) == (2 * (k * (n - 1)) + (maxPoints - 1)) / (2 * (maxPoints - 1))
  {
    var d := maxPoints - 1;
    assert d == Divisor(maxPoints);
    RoundEnds(n - 1, d);
    MulNonnegative(d - k, n - 1);
    assert (d - k) * (n - 1) == d * (n - 1) - k * (n - 1);
    DivMono(2 * (k * (n - 1)) + d, 2 * (d * (n - 1)) + d, 2 * d);
  }

  lemma DivMono(a: int, b: int, c: nat)
    requires c > 0 && a <= b
    ensures a / c <= b / c
  {
    MulOrder(c, b / c, a / c);
  }

  lemma {:induction false} SampleStrictlyIncreases(n: nat, maxPoints: nat, i: nat, j: nat)
    requires n > maxPoints >= 2 && i < j < maxPoints
    ensures SampleIndex(n, maxPoints, i) < SampleIndex(n, maxPoints, j)
    decreases j
  {
    SampleSteps(n, maxPoints, j - 1);
    if i < j - 1 {
      SampleStrictlyIncreases(n, maxPoints, i, j - 1);
    }
  }

  /** The limit is kept exactly when it is at least two or nothing had to be thinned. */
  lemma SlimWithinLimitIff<T>(points: seq<T>, maxPoints: nat)
    ensures |Slim(points, maxPoints)| <= maxPoints <==> |points| <= maxPoints || maxPoints >= 2
    ensures |points| > maxPoints >= 2 ==> |Slim(points, maxPoints)| == maxPoints
    ensures points != [] && (maxPoints >= 1 || |points| == 1) ==>
              Slim(points, maxPoints)[0] == points[0]
                  && Slim(points, maxPoints)[|Slim(points, maxPoints)| - 1] == points[|points| - 1]
  {
    if |points| > maxPoints >= 2 {
      SampleSteps(|points|, maxPoints, 0);
    }
  }

  lemma SampleZero(n: nat, maxPoints: nat)
    requires n > 0
    ensures SampleIndex(n, maxPoints, 0) == 0
  {
    RoundEnds(n - 1, Divisor(maxPoints));
  }

  method SlimReportPoints<T>(points: seq<T>, maxPoints: nat) returns (slimmed: seq<T>)
    ensures slimmed == Slim(points, maxPoints)
  {
    hide SampleIndex;
    var n := |points|;
    if n <= maxPoints {
      return points;
    }
    slimmed := [];
    var previousIndex: int := -1;
    var sample := 0;
    while sample < maxPoints
      invariant 0 <= sample <= maxPoints
      invariant |slimmed| == sample
      invariant previousIndex == if sample == 0 then -1 else SampleIndex(n, maxPoints, sample - 1)
      invariant forall k :: 0 <= k < sample ==> slimmed[k] == points[SampleIndex(n, maxPoints, k)]
    {
      var index := SampleIndex(n, maxPoints, sample);
      if maxPoints >= 2 && sample > 0 {
        SampleSteps(n, maxPoints, sample - 1);
      }
      if index != previousIndex {
        slimmed := slimmed + [points[index]];
        previousIndex := index;
      }
      sample := sample + 1;
    }
    if maxPoints >= 2 {
      SampleSteps(n, maxPoints, 0);
    } else if maxPoints == 1 {
      SampleZero(n, 1);
      assert slimmed == [points[0]];
    }
    if previousIndex != n - 1 {
      slimmed := slimmed + [points[n - 1]];
    }
  }

  // ---------- strided thinning ----------

  function Ceil(n: nat, d: nat): nat
    requires d > 0
  {
    (n + d - 1) / d
  }

  function Valid(points: seq<Option<real>>): seq<Option<real>> {
    if points == [] then [] else (if points[0].Some? then [points[0]] else []) + Valid(points[1..])
  }

  /** `filter((_, index) => index % step === 0)`. */
  function EveryNth<T>(s: seq<T>, step: nat): seq<T>
    requires step > 0
  {
    if s == [] then []
    else
      var last := |s| - 1;
      EveryNth(s[..last], step) + if last % step == 0 then [s[last]] else []
  }

  function SlimPoints(points: seq<Option<real>>, maxPoints: nat): seq<Option<real>>
    requires maxPoints > 0
  {
    var valid := Valid(points);
    if |valid| <= maxPoints then valid else EveryNth(valid, Ceil(|valid|, maxPoints))
  }

  lemma CeilSteps(n: nat, d: nat)
    requires d > 0
    ensures Ceil(n + 1, d) == n / d + 1
    ensures Ceil(n, d) == if n % d == 0 then n / d else n / d + 1
  {
    var q, r := n / d, n % d;
    assert n == d * q + r;
    assert d * (q + 1) == d * q + d;
    DivExact(d, q + 1, r);
    if r == 0 {
      DivExact(d, q, d - 1);
    } else {
      DivExact(d, q + 1, r - 1);
    }
  }

  function Multiple(step: nat, j: nat): nat {
    MulNonnegative(step, j);
    step * j
  }

  /** The stride keeps exactly the points whose index is a multiple of the step. */
  lemma {:induction false} StrideKeeps<T>(s: seq<T>, step: nat)
    requires step > 0
    ensures |EveryNth(s, step)| == Ceil(|s|, step)
    ensures forall j :: 0 <= j < |EveryNth(s, step)| ==>
        Multiple(step, j) < |s| && EveryNth(s, step)[j] == s[Multiple(step, j)]
  {
    hide Ceil, Multiple;
    if s == [] {
      CeilZero(step);
    } else {
      var last := |s| - 1;
      var before := EveryNth(s[..last], step);
      StrideKeeps(s[..last], step);
      CeilSteps(last, step);
      LastMultiple(last, step);
      forall j | 0 <= j < |EveryNth(s, step)|
        ensures Multiple(step, j) < |s| && EveryNth(s, step)[j] == s[Multiple(step, j)]
      {
        if j < |before| {
          assert EveryNth(s, step)[j] == before[j];
        }
      }
    }
  }

  lemma CeilZero(d: nat)
    requires d > 0
    ensures Ceil(0, d) == 0
  {
    DivExact(d, 0, d - 1);
  }

  lemma LastMultiple(n: nat, step: nat)
    requires step > 0
    ensures n % step == 0 <==> Multiple(step, n / step) == n
  {
    assert n == step * (n / step) + n % step;
  }

  /** The stride for n points and a limit m keeps at most m of them, and more than half of m. */
  lemma StrideCount(n: nat, m: nat)
    requires n > m > 0
    ensures Ceil(n, m) >= 2 && Ceil(n, Ceil(n, m)) <= m < 2 * Ceil(n, Ceil(n, m))
  {
    hide Ceil;
    var s := Ceil(n, m);
    CeilBounds(n, m);
    MulOrder(m, s, 2);
    var size := Ceil(n, s);
    CeilBounds(n, s);
    assert m * s == s * m;
    MulOrder(s, m, size);
    assert s * (2 * size) == 2 * (s * size);
    MulOrder(s, 2 * size, m);
    MulOrder(s, m, 2 * size);
  }

  lemma CeilBounds(n: nat, d: nat)
    requires d > 0
    ensures d * Ceil(n, d) - d < n <= d * Ceil(n, d)
  {
    var c := Ceil(n, d);
    assert n + d - 1 == d * c + (n + d - 1) % d;
  }

  /** `slimPoints` keeps the first valid point, only valid points, and between half the limit and the limit. */
  lemma SlimPointsBounds(points: seq<Option<real>>, maxPoints: nat)
    requires maxPoints > 0
    ensures var valid, slim := Valid(points), SlimPoints(points, maxPoints);
            && |slim| <= maxPoints
            && (|valid| <= maxPoints ==> slim == valid)
            && (|valid| > maxPoints ==> 2 * |slim| > maxPoints)
            && (valid != [] ==> slim != [] && slim[0] == valid[0])
            && forall j :: 0 <= j < |slim| ==> slim[j].Some?
  {
    var valid := Valid(points);
    ValidSound(points);
    if |valid| > maxPoints {
      var step := Ceil(|valid|, maxPoints);
      StrideCount(|valid|, maxPoints);
      StrideKeeps(valid, step);
      var slim := SlimPoints(points, maxPoints);
      assert slim[0] == valid[Multiple(step, 0)];
    }
  }

  lemma {:induction false} ValidSound(points: seq<Option<real>>)
    ensures forall j :: 0 <= j < |Valid(points)| ==> Valid(points)[j].Some?
  {
    if points != [] {
      ValidSound(points[1..]);
    }
  }

  /** Unlike even sampling, the stride keeps the last valid point only when it falls on a multiple of the step. */
  lemma StrideKeepsLastIff<T>(s: seq<T>, step: nat)
    requires step > 0 && s != []
    ensures var kept := EveryNth(s, step);
            kept != [] && (Multiple(step, |kept| - 1) == |s| - 1 <==> (|s| - 1) % step == 0)
  {
    hide Ceil, Multiple, EveryNth;
    StrideKeeps(s, step);
    CeilSteps(|s| - 1, step);
    LastMultiple(|s| - 1, step);
  }
}
