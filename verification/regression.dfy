/** The simplified least-squares fit main.py uses in place of
    `scipy.stats.linregress` when scipy is missing (MockStats.linregress), the
    trend label drawn from its slope, and the prediction of the regression
    view.

    Observations are integers (DHIS2 counts and the period indices 0, 1, …)
    and the fit is exact rational arithmetic. Every deviation from the mean
    is carried multiplied by the number of points n, `n·v - Σv`, which keeps
    it an integer: this scales the mock's numerator and denominator both by
    n², so the slope and the `denominator == 0` test are those of the mock. */
module Regression {

  /** One observation; the callers pass two columns of equal length, modelled
      as a sequence of pairs. */
  datatype Point = Point(x: int, y: int)

  /** The two coefficients the views read. */
  datatype Fit = Fit(slope: real, intercept: real)

  function SumX(ps: seq<Point>): int {
    if |ps| == 0 then 0 else SumX(ps[..|ps| - 1]) + ps[|ps| - 1].x
  }

  function SumY(ps: seq<Point>): int {
    if |ps| == 0 then 0 else SumY(ps[..|ps| - 1]) + ps[|ps| - 1].y
  }

  function MeanX(ps: seq<Point>): real
    requires |ps| > 0
  {
    (SumX(ps) as real) / (|ps| as real)
  }

  function MeanY(ps: seq<Point>): real
    requires |ps| > 0
  {
    (SumY(ps) as real) / (|ps| as real)
  }

  /** `n·(v - mean)` for a value `v` of a column of `n` values summing to `sum`. */
  function Deviation(v: int, n: int, sum: int): int {
    n * v - sum
  }

  /** n² times the mock's numerator, Σ (x - x̄)(y - ȳ). */
  function ScaledCovariance(ps: seq<Point>, n: int, sx: int, sy: int): int {
    if |ps| == 0 then 0
    else
      var p := ps[|ps| - 1];
      ScaledCovariance(ps[..|ps| - 1], n, sx, sy) + Deviation(p.x, n, sx) * Deviation(p.y, n, sy)
  }

  /** n² times the mock's denominator, Σ (x - x̄)². */
  function ScaledSpread(ps: seq<Point>, n: int, sx: int): int {
    if |ps| == 0 then 0
    else
      var p := ps[|ps| - 1];
      ScaledSpread(ps[..|ps| - 1], n, sx) + Deviation(p.x, n, sx) * Deviation(p.x, n, sx)
  }

  /** The spread of the x column that the mock divides by. */
  function Spread(ps: seq<Point>): int {
    ScaledSpread(ps, |ps|, SumX(ps))
  }

  /** Fewer than two points give slope and intercept 0; a zero spread of x
      gives slope 0; the intercept always puts the line through the means. */
  function LinRegress(ps: seq<Point>): (r: Fit)
    ensures |ps| < 2 ==> r == Fit(0.0, 0.0)
    ensures |ps| >= 2 ==> r.intercept == MeanY(ps) - r.slope * MeanX(ps)
    ensures |ps| >= 2 && Spread(ps) == 0 ==> r.slope == 0.0
  {
    if |ps| < 2 then Fit(0.0, 0.0)
    else
      var n, sx, sy := |ps|, SumX(ps), SumY(ps);
      var den := ScaledSpread(ps, n, sx);
      var slope := if den == 0 then 0.0 else (ScaledCovariance(ps, n, sx, sy) as real) / (den as real);
      Fit(slope, MeanY(ps) - slope * MeanX(ps))
  }

  /** `result.slope * x_value + result.intercept`. */
  function Predict(f: Fit, x: real): real {
    f.slope * x + f.intercept
  }

  /** With at least two points the fitted line passes through (mean x, mean y). */
  lemma PredictAtMean(ps: seq<Point>)
    requires |ps| >= 2
    ensures Predict(LinRegress(ps), MeanX(ps)) == MeanY(ps)
  {
  }

  lemma {:induction false} SpreadNonNegative(ps: seq<Point>, n: int, s: int)
    ensures ScaledSpread(ps, n, s) >= 0
  {
    if |ps| > 0 {
      SpreadNonNegative(ps[..|ps| - 1], n, s);
      var d := Deviation(ps[|ps| - 1].x, n, s);
      assert d * d >= 0;
    }
  }

  /** The scaled spread is zero exactly when every scaled deviation is. */
  lemma {:induction false} SpreadZeroIff(ps: seq<Point>, n: int, s: int)
    ensures ScaledSpread(ps, n, s) == 0 <==> forall i :: 0 <= i < |ps| ==> Deviation(ps[i].x, n, s) == 0
  {
    if |ps| > 0 {
      var init := ps[..|ps| - 1];
      assert forall i :: 0 <= i < |init| ==> init[i] == ps[i];
      SpreadZeroIff(init, n, s);
      SpreadNonNegative(init, n, s);
      var d := Deviation(ps[|ps| - 1].x, n, s);
      assert d != 0 ==> d * d > 0;
    }
  }

  lemma {:induction false} SumXConstant(ps: seq<Point>, c: int)
    requires forall i :: 0 <= i < |ps| ==> ps[i].x == c
    ensures SumX(ps) == |ps| * c
  {
    if |ps| > 0 {
      var init := ps[..|ps| - 1];
      assert forall i :: 0 <= i < |init| ==> init[i] == ps[i];
      SumXConstant(init, c);
    }
  }

  lemma CancelFactor(n: int, u: int, v: int)
    requires n > 0 && n * u == n * v
    ensures u == v
  {
  }

  /** The mock's `denominator == 0` test holds exactly when all x are equal. */
  lemma SpreadZeroIffConstantX(ps: seq<Point>)
    requires |ps| > 0
    ensures Spread(ps) == 0 <==> forall i, j :: 0 <= i < |ps| && 0 <= j < |ps| ==> ps[i].x == ps[j].x
  {
    var n, sx := |ps|, SumX(ps);
    SpreadZeroIff(ps, n, sx);
    if forall i, j :: 0 <= i < |ps| && 0 <= j < |ps| ==> ps[i].x == ps[j].x {
      SumXConstant(ps, ps[0].x);
      forall i | 0 <= i < |ps| ensures Deviation(ps[i].x, n, sx) == 0 {
        assert ps[i].x == ps[0].x;
      }
    }
    if forall i :: 0 <= i < |ps| ==> Deviation(ps[i].x, n, sx) == 0 {
      forall i, j | 0 <= i < |ps| && 0 <= j < |ps| ensures ps[i].x == ps[j].x {
        assert Deviation(ps[i].x, n, sx) == 0 && Deviation(ps[j].x, n, sx) == 0;
        CancelFactor(n, ps[i].x, ps[j].x);
      }
    }
  }

  /** All x equal: a flat line at the mean of y. */
  lemma ConstantXIsFlat(ps: seq<Point>)
    requires |ps| >= 2
    requires forall i, j :: 0 <= i < |ps| && 0 <= j < |ps| ==> ps[i].x == ps[j].x
    ensures LinRegress(ps).slope == 0.0
    ensures LinRegress(ps).intercept == MeanY(ps)
  {
    SpreadZeroIffConstantX(ps);
  }

  /** Points on y = a·x + b. */
  predicate OnLine(ps: seq<Point>, a: int, b: int) {
    forall i :: 0 <= i < |ps| ==> ps[i].y == a * ps[i].x + b
  }

  lemma OnLinePrefix(ps: seq<Point>, a: int, b: int)
    requires |ps| > 0 && OnLine(ps, a, b)
    ensures OnLine(ps[..|ps| - 1], a, b)
  {
    var init := ps[..|ps| - 1];
    forall i | 0 <= i < |init| ensures init[i].y == a * init[i].x + b {
      assert init[i] == ps[i];
    }
  }

  lemma {:induction false} SumYOnLine(ps: seq<Point>, a: int, b: int)
    requires OnLine(ps, a, b)
    ensures SumY(ps) == a * SumX(ps) + |ps| * b
  {
    if |ps| > 0 {
      OnLinePrefix(ps, a, b);
      SumYOnLine(ps[..|ps| - 1], a, b);
    }
  }

  /** On a line, every scaled y deviation is `a` times the x deviation. */
  lemma DeviationOnLine(x: int, a: int, b: int, n: int, sx: int)
    ensures Deviation(a * x + b, n, a * sx + n * b) == a * Deviation(x, n, sx)
  {
  }

  lemma {:induction false} CovarianceOnLine(ps: seq<Point>, a: int, b: int, n: int, sx: int)
    requires OnLine(ps, a, b)
    ensures ScaledCovariance(ps, n, sx, a * sx + n * b) == a * ScaledSpread(ps, n, sx)
  {
    if |ps| > 0 {
      OnLinePrefix(ps, a, b);
      CovarianceOnLine(ps[..|ps| - 1], a, b, n, sx);
      var p := ps[|ps| - 1];
      DeviationOnLine(p.x, a, b, n, sx);
      var d := Deviation(p.x, n, sx);
      assert d * (a * d) == a * (d * d);
    }
  }

  lemma RatioOfMultiple(a: int, den: int)
    requires den != 0
    ensures ((a * den) as real) / (den as real) == a as real
  {
    assert (a * den) as real == (a as real) * (den as real);
  }

  lemma MeanOnLine(ps: seq<Point>, a: int, b: int)
    requires |ps| > 0 && OnLine(ps, a, b)
    ensures MeanY(ps) == (a as real) * MeanX(ps) + b as real
  {
    var n := |ps|;
    SumYOnLine(ps, a, b);
    var sx := SumX(ps);
    assert (SumY(ps) as real) == (a as real) * (sx as real) + (n as real) * (b as real);
  }

  /** Points exactly on a line with at least two distinct x give back that line. */
  lemma ExactLineRecovered(ps: seq<Point>, a: int, b: int)
    requires |ps| >= 2 && OnLine(ps, a, b)
    requires exists i, j :: 0 <= i < |ps| && 0 <= j < |ps| && ps[i].x != ps[j].x
    ensures LinRegress(ps) == Fit(a as real, b as real)
  {
    var n, sx, sy := |ps|, SumX(ps), SumY(ps);
    SumYOnLine(ps, a, b);
    CovarianceOnLine(ps, a, b, n, sx);
    SpreadZeroIffConstantX(ps);
    var den := ScaledSpread(ps, n, sx);
    assert ScaledCovariance(ps, n, sx, sy) == a * den;
    RatioOfMultiple(a, den);
    MeanOnLine(ps, a, b);
    assert LinRegress(ps).slope == a as real;
  }

  /** The three trend messages of the temporal view. */
  datatype Trend = Rising | Falling | Flat

  function TrendOf(f: Fit): Trend {
    if f.slope > 0.0 then Rising else if f.slope < 0.0 then Falling else Flat
  }

  /** The temporal view fits the per-period sums against 0, 1, 2, …. */
  function IndexPoints(ys: seq<int>): (ps: seq<Point>)
    ensures |ps| == |ys|
    ensures forall i :: 0 <= i < |ps| ==> ps[i] == Point(i, ys[i])
  {
    seq(|ys|, i requires 0 <= i < |ys| => Point(i, ys[i]))
  }

  /** The trend shown for per-period sums (the view only fits more than one period). */
  function SeriesTrend(ys: seq<int>): Trend {
    TrendOf(LinRegress(IndexPoints(ys)))
  }

  /** Sums growing by a fixed positive step read as a rise, a fixed negative
      step as a fall, constant sums as stable. */
  lemma SeriesTrendOfLine(ys: seq<int>, a: int, b: int)
    requires |ys| >= 2
    requires forall i :: 0 <= i < |ys| ==> ys[i] == a * i + b
    ensures a > 0 ==> SeriesTrend(ys) == Rising
    ensures a < 0 ==> SeriesTrend(ys) == Falling
    ensures a == 0 ==> SeriesTrend(ys) == Flat
  {
    var ps := IndexPoints(ys);
    assert OnLine(ps, a, b);
    assert ps[0].x != ps[1].x;
    ExactLineRecovered(ps, a, b);
  }
}
