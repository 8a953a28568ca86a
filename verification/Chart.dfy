/**
 Axes and point ratios of `chartModel` in apps/api/src/monitoring/report-presentation.service.ts, with
 real numbers for the floats.  Every series holds its finite values; the rest is filtered out before.
 */
module Chart {

  datatype Series = Series(unit: string, values: seq<real>)

  datatype Axis = Axis(min: real, max: real)

  function Max(a: real, b: real): real {
    if a < b then b else a
  }

  function Min(a: real, b: real): real {
    if a < b then a else b
  }

  function Greatest(values: seq<real>): real
    requires values != []
  {
    if |values| == 1 then values[0] else Max(values[0], Greatest(values[1..]))
  }

  function Least(values: seq<real>): real
    requires values != []
  {
    if |values| == 1 then values[0] else Min(values[0], Least(values[1..]))
  }

  /** The values of all series of a unit. */
  function ValuesOf(series: seq<Series>, unit: string): seq<real> {
    if series == [] then []
    else (if series[0].unit == unit then series[0].values else []) + ValuesOf(series[1..], unit)
  }

  function AxisFor(values: seq<real>, unit: string): Axis {
    var min := if unit == "d" && values != [] then Max(0.0, Least(values) * 0.96) else 0.0;
    var observed := if values != [] then Greatest(values) else 1.0;
    Axis(min, if unit == "%" then Max(Max(100.0, observed), min + 1.0) else Max(observed, min + 1.0))
  }

  function RatioY(value: real, axis: Axis): real {
    Min(1.0, Max(0.0, (value - axis.min) / Max(axis.max - axis.min, 1.0)))
  }

  function RatioX(index: nat, count: nat): real {
    if count <= 1 then 0.0 else index as real / (count - 1) as real
  }

  lemma {:induction false} Extremes(values: seq<real>, i: nat)
    requires i < |values|
    ensures Least(values) <= values[i] <= Greatest(values)
    ensures Least(values) in values && Greatest(values) in values
  {
    if |values| > 1 {
      Extremes(values[1..], if i > 0 then i - 1 else 0);
      assert values[1..][if i > 0 then i - 1 else 0] == values[if i > 0 then i else 1];
    }
  }

  lemma {:induction false} SeriesValues(series: seq<Series>, k: nat, i: nat)
    requires k < |series| && i < |series[k].values|
    ensures series[k].values[i] in ValuesOf(series, series[k].unit)
  {
    if k > 0 {
      SeriesValues(series[1..], k - 1, i);
    }
  }

  /** Every axis spans at least one unit, starts at zero or above and reaches every value of its series. */
  lemma AxisReaches(values: seq<real>, unit: string, value: real)
    requires value in values
    ensures var axis := AxisFor(values, unit);
            && 0.0 <= axis.min && axis.max - axis.min >= 1.0 && value <= axis.max
            && (axis.min <= value <==> value >= 0.0)
  {
    var i :| 0 <= i < |values| && values[i] == value;
    Extremes(values, i);
    if unit == "d" && Least(values) >= 0.0 {
      assert Least(values) * 0.96 <= Least(values);
    }
    if unit == "d" && Least(values) < 0.0 {
      assert Least(values) * 0.96 < 0.0;
    }
  }

  /**
   Each plotted ratio lies between 0 and 1 and is the exact position of its value on the axis precisely
   when the value is not negative: the upper clamp and the divisor's lower bound never act.
   */
  lemma ClampActsOnlyBelowZero(series: seq<Series>, k: nat, i: nat)
    requires k < |series| && i < |series[k].values|
    ensures var value, unit := series[k].values[i], series[k].unit;
            var axis := AxisFor(ValuesOf(series, unit), unit);
            && 0.0 <= RatioY(value, axis) <= 1.0
            && axis.max > axis.min
            && (RatioY(value, axis) == (value - axis.min) / (axis.max - axis.min) <==> value >= 0.0)
  {
    var value, unit := series[k].values[i], series[k].unit;
    SeriesValues(series, k, i);
    AxisReaches(ValuesOf(series, unit), unit, value);
    var axis := AxisFor(ValuesOf(series, unit), unit);
    hide AxisFor, ValuesOf;
    PositionBounds(value - axis.min, axis.max - axis.min);
  }

  lemma PositionBounds(offset: real, span: real)
    requires span >= 1.0 && offset <= span
    ensures offset / span <= 1.0
    ensures offset / span >= 0.0 <==> offset >= 0.0
  {
    if offset >= 0.0 {
      assert offset / span >= 0.0;
    } else {
      assert offset == (offset / span) * span;
    }
  }

  /** Heights keep the order of the values on one axis. */
  lemma HeightsKeepOrder(axis: Axis, v: real, w: real)
    requires v <= w
    ensures RatioY(v, axis) <= RatioY(w, axis)
  {
    QuotientKeepsOrder(v - axis.min, w - axis.min, Max(axis.max - axis.min, 1.0));
  }

  /** Along x the points rise strictly, from 0 for the first to 1 for the last. */
  lemma PositionsRise(i: nat, j: nat, count: nat)
    requires i < j < count
    ensures 0.0 <= RatioX(i, count) < RatioX(j, count) <= 1.0
    ensures RatioX(0, count) == 0.0 && RatioX(count - 1, count) == 1.0
  {
    var steps := (count - 1) as real;
    QuotientKeepsOrder(0.0, i as real, steps);
    QuotientKeepsOrder(i as real, j as real, steps);
    QuotientKeepsOrder(j as real, steps, steps);
  }

  lemma QuotientKeepsOrder(a: real, b: real, divisor: real)
    requires divisor > 0.0
    ensures a <= b ==> a / divisor <= b / divisor
    ensures a < b ==> a / divisor < b / divisor
  {
    assert b / divisor - a / divisor == (b - a) / divisor;
    if a < b {
      assert (b - a) / divisor > 0.0;
    }
  }
}
