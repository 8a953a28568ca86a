/**
 What the series of a report come to, said of the points they are given: the consumption, the thinned series and
 the axes of apps/api/src/integrations/integrations.service.ts and
 apps/api/src/monitoring/report-presentation.service.ts.
 */
module ReportLaws {
  import opened Options
  import opened Ranking
  import Chart
  import Thinning
  import Traffic

  // ---------- the points that count, by time ----------

  ghost predicate Counts(p: Traffic.Point) {
    p.clock.Some? && p.value.Some?
  }

  /** The first of two points comes first: it is earlier, or of the same instant and listed first. */
  ghost predicate Leads(points: seq<Traffic.Point>, i: nat, j: nat) {
    && i < |points| && j < |points| && Counts(points[i]) && Counts(points[j])
    && (points[i].clock.value < points[j].clock.value || (points[i].clock == points[j].clock && i < j))
  }

  ghost predicate Led(points: seq<Traffic.Point>, order: seq<nat>) {
    forall j, k :: 0 <= j < k < |order| ==> Leads(points, order[j], order[k])
  }

  /** The positions from `from` on of the points that count, by time, those of one instant as they are listed. */
  ghost predicate InOrder(points: seq<Traffic.Point>, from: nat, order: seq<nat>) {
    && (forall k :: 0 <= k < |order| ==> from <= order[k] < |points| && Counts(points[order[k]]))
    && (forall i :: from <= i < |points| && Counts(points[i]) ==> i in order)
    && Led(points, order)
  }

  /** The samples are those of the points at these positions. */
  ghost predicate Drawn(points: seq<Traffic.Point>, order: seq<nat>, s: seq<Traffic.Sample>) {
    && |s| == |order|
    && forall k :: 0 <= k < |s| ==> order[k] < |points| && points[order[k]].clock == Some(s[k].clock)
                                    && points[order[k]].value == Some(s[k].value)
  }

  lemma {:induction false} OrderOf(points: seq<Traffic.Point>, from: nat) returns (order: seq<nat>)
    requires from <= |points|
    ensures InOrder(points, from, order)
    ensures Drawn(points, order, Rank(Traffic.Samples(points[from..]), Traffic.Earliness))
    decreases |points| - from
  {
    order := [];
    if from < |points| {
      var rest := OrderOf(points, from + 1);
      assert points[from..][1..] == points[from + 1..] && points[from..][0] == points[from];
      var tail := Rank(Traffic.Samples(points[from + 1..]), Traffic.Earliness);
      if Counts(points[from]) {
        var x := Traffic.Sample(points[from].clock.value, points[from].value.value);
        assert Traffic.Samples(points[from..]) == [x] + Traffic.Samples(points[from + 1..]);
        assert ([x] + Traffic.Samples(points[from + 1..]))[1..] == Traffic.Samples(points[from + 1..]);
        order := Inserted(points, from, rest, x, tail);
      } else {
        order := rest;
      }
    }
  }

  lemma {:induction false} Inserted(points: seq<Traffic.Point>, from: nat, rest: seq<nat>, x: Traffic.Sample,
                                    tail: seq<Traffic.Sample>)
    returns (order: seq<nat>)
    requires from < |points| && points[from] == Traffic.Point(Some(x.clock), Some(x.value))
    requires forall k :: 0 <= k < |rest| ==> from < rest[k] < |points| && Counts(points[rest[k]])
    requires Led(points, rest) && Drawn(points, rest, tail)
    ensures forall k :: 0 <= k < |order| ==> from <= order[k] < |points| && Counts(points[order[k]])
    ensures forall i :: i in order <==> i == from || i in rest
    ensures Led(points, order) && Drawn(points, order, Insert(x, tail, Traffic.Earliness))
    decreases |tail|
  {
    if tail == [] || Traffic.Earliness(x) >= Traffic.Earliness(tail[0]) {
      order := [from] + rest;
      InsertedFirst(points, from, rest);
    } else {
      var others := Inserted(points, from, rest[1..], x, tail[1..]);
      order := [rest[0]] + others;
      assert rest == [rest[0]] + rest[1..];
      InsertedLater(points, from, rest, others);
    }
  }

  lemma InsertedFirst(points: seq<Traffic.Point>, from: nat, rest: seq<nat>)
    requires Led(points, rest) && from < |points| && Counts(points[from])
    requires forall k :: 0 <= k < |rest| ==> from < rest[k]
    requires rest != [] ==> rest[0] < |points| && Counts(points[rest[0]])
                            && points[from].clock.value <= points[rest[0]].clock.value
    ensures Led(points, [from] + rest)
  {
    var order := [from] + rest;
    forall j, k | 0 <= j < k < |order| ensures Leads(points, order[j], order[k]) {
      assert k > 1 ==> Leads(points, rest[0], rest[k - 1]);
    }
  }

  lemma InsertedLater(points: seq<Traffic.Point>, from: nat, rest: seq<nat>, others: seq<nat>)
    requires Led(points, rest) && rest != [] && Led(points, others) && Leads(points, rest[0], from)
    requires forall i :: i in others ==> i == from || i in rest[1..]
    ensures Led(points, [rest[0]] + others)
  {
    hide Leads;
    var order := [rest[0]] + others;
    forall j, k | 0 <= j < k < |order| ensures Leads(points, order[j], order[k]) {
      if j == 0 && others[k - 1] != from {
        assert others[k - 1] in others && others[k - 1] in rest[1..];
        var m :| 0 <= m < |rest[1..]| && rest[1..][m] == others[k - 1];
        assert Leads(points, rest[0], rest[m + 1]);
      }
    }
  }

  // ---------- the integral as a weighted sum ----------

  /** Each of the first n values times the milliseconds from the point before it to the point after it. */
  ghost function Weighed(points: seq<Traffic.Point>, order: seq<nat>, n: nat): real
    requires InOrder(points, 0, order) && n <= |order|
  {
    if n == 0 then 0.0
    else
      var before, here := points[order[if n > 1 then n - 2 else 0]], points[order[n - 1]];
      var after := points[order[if n < |order| then n else n - 1]];
      Weighed(points, order, n - 1) + here.value.value * (after.clock.value - before.clock.value) as real
  }

  /** The span from the first of the points to the last one, in milliseconds. */
  ghost function Span(points: seq<Traffic.Point>, order: seq<nat>): int
    requires InOrder(points, 0, order)
  {
    if order == [] then 0 else points[order[|order| - 1]].clock.value - points[order[0]].clock.value
  }

  /** A value times the milliseconds from one clock to another. */
  ghost function Weight(v: real, from: int, to: int): real {
    v * (to - from) as real
  }

  /** Sample n - 1, weighed by the time from the sample before to the sample after. */
  ghost function Term(s: seq<Traffic.Sample>, n: nat): real
    requires 0 < n <= |s|
  {
    Weight(s[n - 1].value, s[if n > 1 then n - 2 else 0].clock, s[if n < |s| then n else n - 1].clock)
  }

  /** The integral of the first n samples, with what the last of them has still to come. */
  ghost function WithRest(s: seq<Traffic.Sample>, n: nat): real
    requires 0 < n <= |s|
  {
    2000.0 * Traffic.Bits(s[..n]) + Weight(s[n - 1].value, s[n - 1].clock, s[if n < |s| then n else n - 1].clock)
  }

  lemma WeighedNext(points: seq<Traffic.Point>, order: seq<nat>, s: seq<Traffic.Sample>, n: nat)
    requires InOrder(points, 0, order) && Drawn(points, order, s) && 0 < n <= |s|
    ensures Weighed(points, order, n) == Weighed(points, order, n - 1) + Term(s, n)
    ensures n > 1 ==> s[n - 2].clock <= s[n - 1].clock
  {
    if n > 1 {
      assert Leads(points, order[n - 2], order[n - 1]);
    }
  }

  lemma RestNext(s: seq<Traffic.Sample>, n: nat)
    requires 1 < n <= |s| && s[n - 2].clock <= s[n - 1].clock
    ensures WithRest(s, n) == WithRest(s, n - 1) + Term(s, n)
  {
    assert s[..n][..n - 1] == s[..n - 1];
    var a, b, next := s[n - 2], s[n - 1], s[if n < |s| then n else n - 1];
    AreaWeighed(a, b);
    assert Traffic.Bits(s[..n]) == Traffic.Bits(s[..n - 1]) + Traffic.Area(a, b);
    hide Traffic.Bits, Traffic.Area;
    StepWeighed(Traffic.Bits(s[..n - 1]), Traffic.Area(a, b), a.value, b.value, a.clock, b.clock, next.clock);
  }

  lemma RestFirst(s: seq<Traffic.Sample>)
    requires s != []
    ensures WithRest(s, 1) == Term(s, 1)
  {
  }

  lemma {:induction false} BitsAreWeighed(points: seq<Traffic.Point>, order: seq<nat>, s: seq<Traffic.Sample>, n: nat)
    requires InOrder(points, 0, order) && Drawn(points, order, s) && 0 < n <= |s|
    ensures WithRest(s, n) == Weighed(points, order, n)
    decreases n
  {
    WeighedNext(points, order, s, n);
    if n == 1 {
      RestFirst(s);
      assert Weighed(points, order, 0) == 0.0;
    } else {
      BitsAreWeighed(points, order, s, n - 1);
      RestNext(s, n);
    }
  }

  /** The integral of all samples. */
  lemma AllWeighed(points: seq<Traffic.Point>, order: seq<nat>, s: seq<Traffic.Sample>)
    requires InOrder(points, 0, order) && Drawn(points, order, s) && s != []
    ensures 2000.0 * Traffic.Bits(s) == Weighed(points, order, |order|)
  {
    hide Traffic.Bits;
    BitsAreWeighed(points, order, s, |s|);
    hide InOrder, Drawn;
    assert s[..|s|] == s;
  }

  /** One more trapezoid: what was lacking of the earlier value is added, and what the later one has so far. */
  lemma StepWeighed(bits: real, area: real, u: real, v: real, x: int, y: int, z: int)
    requires 2000.0 * area == Weight(u, x, y) + Weight(v, x, y)
    ensures 2000.0 * (bits + area) + Weight(v, y, z) == 2000.0 * bits + Weight(u, x, y) + Weight(v, x, z)
  {
    Regroup(v, (y - x) as real, (z - y) as real);
    assert (y - x) as real + (z - y) as real == (z - x) as real;
  }

  lemma AreaWeighed(a: Traffic.Sample, b: Traffic.Sample)
    requires a.clock <= b.clock
    ensures 2000.0 * Traffic.Area(a, b) == Weight(a.value, a.clock, b.clock) + Weight(b.value, a.clock, b.clock)
  {
    var d := (b.clock - a.clock) as real;
    assert 2000.0 * ((a.value + b.value) / 2.0 * (d / 1000.0)) == a.value * d + b.value * d;
  }

  lemma Regroup(v: real, x: real, y: real)
    ensures v * x + v * y == v * (x + y)
  {
  }

  // ---------- what a report says of its traffic ----------

  /** Bytes and time of one series of points. */
  ghost predicate MeasuredAs(points: seq<Traffic.Point>, bytes: Option<real>, ms: int) {
    exists order ::
      && InOrder(points, 0, order) && ms == Span(points, order) && (bytes.Some? <==> ms > 0)
      && (bytes.Some? ==> 16000.0 * bytes.value == Weighed(points, order, |order|))
  }

  /** What is reported of a kind: that of its first series, or nothing. */
  ghost predicate CountedAs(series: seq<Traffic.Series>, kind: string, bytes: Option<real>, avg: Option<real>,
                            max: Option<real>, ms: int) {
    || ((forall k :: 0 <= k < |series| ==> series[k].kind != kind) && bytes.None? && avg.None? && max.None? && ms == 0)
    || exists k :: 0 <= k < |series| && series[k].kind == kind && (forall j :: 0 <= j < k ==> series[j].kind != kind)
                   && avg == series[k].avg && max == series[k].max && MeasuredAs(series[k].points, bytes, ms)
  }

  lemma SeriesMeasured(points: seq<Traffic.Point>) returns (ms: int)
    ensures var t := Traffic.TotalsOf(Traffic.Sorted(points));
            MeasuredAs(points, Traffic.Bytes(t.bits), ms) && 1000.0 * t.coveredSeconds == ms as real
  {
    hide Rank, Traffic.Samples, Traffic.Bits, Traffic.Covered;
    var order := OrderOf(points, 0);
    assert points[0..] == points;
    var s := Traffic.Sorted(points);
    ms := Span(points, order);
    if s != [] {
      AllWeighed(points, order, s);
      SpanCovered(points, order, s);
    } else {
      NothingCovered();
    }
  }

  lemma NothingCovered()
    ensures Traffic.Covered([]) == 0.0
  {
  }

  lemma SpanCovered(points: seq<Traffic.Point>, order: seq<nat>, s: seq<Traffic.Sample>)
    requires InOrder(points, 0, order) && Drawn(points, order, s) && s != []
    ensures 1000.0 * Traffic.Covered(s) == Span(points, order) as real
  {
    forall i, j | 0 <= i < j < |s| ensures s[i].clock <= s[j].clock {
      assert Leads(points, order[i], order[j]);
    }
    Traffic.CoveredTelescopes(s);
  }

  lemma {:induction false} KindCounted(series: seq<Traffic.Series>, kind: string) returns (ms: int)
    ensures var first := Traffic.FirstOfKind(series, kind);
            var t := Traffic.TotalsFor(first);
            && CountedAs(series, kind, Traffic.Bytes(t.bits), if first.Some? then first.value.avg else None,
                         if first.Some? then first.value.max else None, ms)
            && 1000.0 * t.coveredSeconds == ms as real
  {
    hide Traffic.TotalsOf, Traffic.Sorted, MeasuredAs;
    ms := 0;
    if series != [] {
      if series[0].kind == kind {
        ms := SeriesMeasured(series[0].points);
      } else {
        ms := KindCounted(series[1..], kind);
        KindLater(series, kind, ms);
      }
    }
  }

  lemma KindLater(series: seq<Traffic.Series>, kind: string, ms: int)
    requires series != [] && series[0].kind != kind
    ensures forall bytes, avg, max :: CountedAs(series[1..], kind, bytes, avg, max, ms) ==>
                                        CountedAs(series, kind, bytes, avg, max, ms)
  {
    hide MeasuredAs;
    forall bytes, avg, max | CountedAs(series[1..], kind, bytes, avg, max, ms)
      ensures CountedAs(series, kind, bytes, avg, max, ms)
    {
      if k :| 0 <= k < |series[1..]| && series[1..][k].kind == kind
              && (forall j :: 0 <= j < k ==> series[1..][j].kind != kind) && avg == series[1..][k].avg
              && max == series[1..][k].max && MeasuredAs(series[1..][k].points, bytes, ms) {
        assert series[k + 1] == series[1..][k];
        assert forall j :: 0 < j <= k ==> series[j] == series[1..][j - 1];
      } else {
        assert forall k :: 0 < k < |series| ==> series[k] == series[1..][k - 1];
      }
    }
  }

  /**
   The consumption of a report, in terms of its points alone: the bytes of a direction are an eighth of the bits,
   each value weighed by half the time around it, of the first series of its kind.
   */
  lemma ConsumptionMeans(series: seq<Traffic.Series>)
    ensures var c := Traffic.ConsumptionOf(series);
            && (exists received, sent ::
                  && CountedAs(series, "trafficIn", c.receivedBytes, c.avgReceive, c.peakReceive, received)
                  && CountedAs(series, "trafficOut", c.sentBytes, c.avgSend, c.peakSend, sent)
                  && 1000.0 * c.coveredSeconds == (if received >= sent then received else sent) as real)
            && c.totalBytes == (if c.receivedBytes.None? then c.sentBytes else if c.sentBytes.None? then c.receivedBytes
                                else Some(c.receivedBytes.value + c.sentBytes.value))
  {
    hide Traffic.FirstOfKind, Traffic.TotalsFor, CountedAs;
    var received := KindCounted(series, "trafficIn");
    var sent := KindCounted(series, "trafficOut");
  }

  // ---------- thinned series ----------

  /** The positions from `from` on where the points have a value, in order. */
  ghost predicate PlacesOfValues(points: seq<Option<real>>, from: nat, places: seq<nat>) {
    && (forall k :: 0 <= k < |places| ==> from <= places[k] < |points| && points[places[k]].Some?)
    && (forall i :: from <= i < |points| && points[i].Some? ==> i in places)
    && (forall j, k :: 0 <= j < k < |places| ==> places[j] < places[k])
  }

  lemma {:induction false} ValidPlaces(points: seq<Option<real>>, from: nat) returns (places: seq<nat>)
    requires from <= |points|
    ensures PlacesOfValues(points, from, places) && TakenFrom(points, places, Thinning.Valid(points[from..]))
    decreases |points| - from
  {
    places := [];
    if from < |points| {
      var rest := ValidPlaces(points, from + 1);
      assert points[from..][1..] == points[from + 1..] && points[from..][0] == points[from];
      NextPlace(points, from, rest);
      places := if points[from].Some? then [from] + rest else rest;
      hide PlacesOfValues;
      NextTaken(points, from, rest, Thinning.Valid(points[from + 1..]));
    }
  }

  lemma NextTaken(points: seq<Option<real>>, from: nat, places: seq<nat>, taken: seq<Option<real>>)
    requires from < |points| && TakenFrom(points, places, taken)
    ensures TakenFrom(points, [from] + places, [points[from]] + taken)
  {
  }

  ghost predicate TakenFrom(points: seq<Option<real>>, places: seq<nat>, taken: seq<Option<real>>) {
    |taken| == |places| && forall k :: 0 <= k < |places| ==> places[k] < |points| && taken[k] == points[places[k]]
  }

  lemma NextPlace(points: seq<Option<real>>, from: nat, places: seq<nat>)
    requires from < |points| && PlacesOfValues(points, from + 1, places)
    ensures PlacesOfValues(points, from, if points[from].Some? then [from] + places else places)
  {
  }

  /**
   The strided thinning, in terms of its points alone: with n values and a limit it keeps every one of them, or,
   above the limit, every step-th one from the first on, with the least step that keeps the limit.
   */
  lemma SlimPointsMean(points: seq<Option<real>>, limit: nat) returns (places: seq<nat>, step: nat)
    requires limit > 0
    ensures PlacesOfValues(points, 0, places) && step > 0
    ensures |places| <= limit ==> step == 1
    ensures |places| > limit ==> (step - 1) * limit < |places| <= step * limit
    ensures var slim := Thinning.SlimPoints(points, limit);
            && (|slim| - 1) * step < |places| <= |slim| * step
            && forall k :: 0 <= k < |slim| ==> 0 <= k * step < |places| && slim[k] == points[places[k * step]]
  {
    places := ValidPlaces(points, 0);
    assert points[0..] == points;
    var valid := Thinning.Valid(points);
    if |valid| <= limit {
      step := 1;
      assert forall k :: k * step == k;
    } else {
      step := Thinning.Ceil(|valid|, limit);
      Thinning.CeilBounds(|valid|, limit);
      Thinning.StrideCount(|valid|, limit);
      Thinning.StrideKeeps(valid, step);
      var slim := Thinning.SlimPoints(points, limit);
      Thinning.CeilBounds(|valid|, step);
      hide Thinning.Ceil, Thinning.EveryNth, Thinning.Valid, Thinning.SlimPoints;
      Products(step, limit);
      Products(step, |slim|);
      forall k | 0 <= k < |slim| ensures 0 <= k * step < |places| && slim[k] == points[places[k * step]] {
        Products(step, k);
        assert slim[k] == valid[Thinning.Multiple(step, k)];
      }
    }
  }

  lemma Products(a: nat, b: nat)
    ensures a * b == b * a && (a - 1) * b == a * b - b && (b - 1) * a == a * b - a && Thinning.Multiple(a, b) == b * a
  {
  }

  /**
   Even sampling keeps, for each sample, the point nearest to its exact position, the later one when two are equally
   near.
   */
  lemma SampleIsNearest<T>(points: seq<T>, limit: nat, k: nat) returns (at: nat)
    requires |points| > limit >= 2 && k < limit
    ensures |Thinning.Slim(points, limit)| == limit
    ensures at < |points| && Thinning.Slim(points, limit)[k] == points[at]
    ensures 2 * (at * (limit - 1)) - (limit - 1) <= 2 * (k * (|points| - 1)) < 2 * (at * (limit - 1)) + (limit - 1)
  {
    at := Thinning.SampleIndex(|points|, limit, k);
    Thinning.SampleUncapped(|points|, limit, k);
    hide Thinning.SampleIndex;
    Nearest(2 * (k * (|points| - 1)), limit - 1, at);
  }

  lemma Nearest(x: int, d: nat, at: int)
    requires d > 0 && at == (x + d) / (2 * d)
    ensures 2 * (at * d) - d <= x < 2 * (at * d) + d
  {
    var c := 2 * d;
    assert c * at <= x + d < c * at + c;
    assert c * at == 2 * (at * d);
  }

  // ---------- axes ----------

  /** A series of the unit has the value. */
  ghost predicate Shows(series: seq<Chart.Series>, unit: string, v: real) {
    exists k, i :: 0 <= k < |series| && 0 <= i < |series[k].values| && series[k].unit == unit
                   && series[k].values[i] == v
  }

  lemma {:induction false} ShownIff(series: seq<Chart.Series>, unit: string, v: real)
    ensures v in Chart.ValuesOf(series, unit) <==> Shows(series, unit, v)
  {
    if series != [] {
      ShownIff(series[1..], unit, v);
      if Shows(series[1..], unit, v) {
        var k, i :| 0 <= k < |series[1..]| && 0 <= i < |series[1..][k].values|
            && series[1..][k].unit == unit && series[1..][k].values[i] == v;
        assert series[k + 1] == series[1..][k];
      }
      if Shows(series, unit, v) {
        var k, i :| 0 <= k < |series| && 0 <= i < |series[k].values| && series[k].unit == unit
            && series[k].values[i] == v;
        assert k > 0 ==> series[1..][k - 1] == series[k];
      }
    }
  }

  /** Where the axis of a unit starts: a little below the least value for days, if that is positive, else at zero. */
  ghost predicate StartsAt(series: seq<Chart.Series>, unit: string, min: real) {
    if unit == "d" && (exists v :: Shows(series, unit, v)) && (forall v :: Shows(series, unit, v) ==> v > 0.0)
    then exists v :: Shows(series, unit, v) && min == v * 0.96 && forall w :: Shows(series, unit, w) ==> v <= w
    else min == 0.0
  }

  /** What the end of an axis has to reach. */
  ghost predicate Reached(series: seq<Chart.Series>, unit: string, min: real, v: real) {
    Shows(series, unit, v) || v == min + 1.0 || (unit == "%" && v == 100.0)
  }

  /** An axis ends at the greatest of the values it has to reach. */
  lemma AxisMeans(series: seq<Chart.Series>, unit: string)
    ensures var axis := Chart.AxisFor(Chart.ValuesOf(series, unit), unit);
            && StartsAt(series, unit, axis.min) && Reached(series, unit, axis.min, axis.max)
            && forall v :: Reached(series, unit, axis.min, v) ==> v <= axis.max
  {
    hide Shows;
    var values := Chart.ValuesOf(series, unit);
    forall v ensures v in values <==> Shows(series, unit, v) {
      ShownIff(series, unit, v);
    }
    hide Chart.ValuesOf, Chart.Least, Chart.Greatest;
    if values != [] {
      Chart.Extremes(values, 0);
      forall v | v in values ensures Chart.Least(values) <= v <= Chart.Greatest(values) {
        var i :| 0 <= i < |values| && values[i] == v;
        Chart.Extremes(values, i);
      }
      assert values[0] in values;
    }
  }

  /** Along x the points stand evenly; below zero they all lie on the bottom. */
  lemma PointsStandEvenly(i: nat, count: nat, series: seq<Chart.Series>, k: nat, j: nat)
    requires i < count && k < |series| && j < |series[k].values|
    ensures Chart.RatioX(i, count) * (if count > 1 then count - 1 else 1) as real == i as real
    ensures var value, unit := series[k].values[j], series[k].unit;
            value < 0.0 ==> Chart.RatioY(value, Chart.AxisFor(Chart.ValuesOf(series, unit), unit)) == 0.0
  {
    var value, unit := series[k].values[j], series[k].unit;
    Chart.SeriesValues(series, k, j);
    Chart.AxisReaches(Chart.ValuesOf(series, unit), unit, value);
    Chart.ClampActsOnlyBelowZero(series, k, j);
    hide Chart.AxisFor, Chart.ValuesOf;
    var axis := Chart.AxisFor(Chart.ValuesOf(series, unit), unit);
    if value < 0.0 {
      Chart.PositionBounds(value - axis.min, axis.max - axis.min);
    }
  }
}
