/**
 * The price forecast: an ordinary least-squares line through the closing
 * prices, indexed 0..n-1, projected one and seven steps past the last price.
 */
module Forecast {
  import opened Sums
  import opened Market
  import opened Window

  datatype Regression = Regression(slope: real, intercept: real)

  /** The fit returned when the inputs cannot be fitted. */
  const NoFit := Regression(0.0, 0.0)

  /**
   * `u·v`. Products that cross a lemma call are written with `Mul`, so that
   * the solver matches them as terms instead of re-deriving them.
   */
  function Mul(u: real, v: real): real
  {
    u * v
  }

  /** `v²`. */
  function Square(v: real): real
  {
    v * v
  }

  /** `n·Σx² − (Σx)²`, the denominator of the least-squares slope. */
  function Denominator(x: seq<real>): real
  {
    Mul(|x| as real, Dot(x, x)) - Mul(Sum(x), Sum(x))
  }

  /**
   * The least-squares fit from the four sums of `linearRegression`, over `n`
   * points; the zero fit when the denominator is zero.
   */
  function FitFromSums(n: real, sumX: real, sumY: real, sumXY: real, sumXX: real): (r: Regression)
    requires n > 0.0
    ensures n * sumXX - sumX * sumX == 0.0 ==> r == NoFit
    ensures n * sumXX - sumX * sumX != 0.0 ==>
      r.slope * (n * sumXX - sumX * sumX) == n * sumXY - sumX * sumY
    ensures n * sumXX - sumX * sumX != 0.0 ==> n * r.intercept + r.slope * sumX == sumY
  {
    var denominator := n * sumXX - sumX * sumX;
    if denominator == 0.0 then NoFit
    else
      var slope := (n * sumXY - sumX * sumY) / denominator;
      Regression(slope, (sumY - slope * sumX) / n)
  }

  /**
   * `linearRegression`: the least-squares line through the points
   * `(x[i], y[i])`; the zero fit for mismatched or empty inputs or when every
   * x value is the same.
   */
  function LinearRegression(x: seq<real>, y: seq<real>): (r: Regression)
    ensures |x| != |y| || x == [] ==> r == NoFit
    ensures |x| == |y| && Denominator(x) == 0.0 ==> r == NoFit
  {
    if |x| != |y| || |x| == 0 then NoFit
    else FitFromSums(|x| as real, Sum(x), Sum(y), Dot(x, y), Dot(x, x))
  }

  /** Two entries of `x` differ. */
  predicate HasDistinct(x: seq<real>)
  {
    exists i, j :: 0 <= i < |x| && 0 <= j < |x| && x[i] != x[j]
  }

  /** The squared deviations of `x` from `t`. */
  function Deviations(x: seq<real>, t: real): (d: seq<real>)
    ensures |d| == |x|
  {
    seq(|x|, i requires 0 <= i < |x| => Square(x[i] - t))
  }

  lemma SquarePositive(v: real)
    requires v != 0.0
    ensures Square(v) > 0.0
  {
    calc {
      Square(v);
      v * v;
    > 0.0;
    }
  }

  lemma DeviationsNonNegative(x: seq<real>, t: real)
    ensures forall i :: 0 <= i < |x| ==> Deviations(x, t)[i] >= 0.0
  {
    var d := Deviations(x, t);
    forall i | 0 <= i < |x| ensures d[i] >= 0.0 {
      if x[i] != t { SquarePositive(x[i] - t); }
    }
  }

  /** The squared deviations from `t` sum to a non-negative value, positive unless every entry equals `t`. */
  lemma DeviationsSign(x: seq<real>, t: real)
    ensures Sum(Deviations(x, t)) >= 0.0
    ensures (forall i :: 0 <= i < |x| ==> x[i] == t) ==> Sum(Deviations(x, t)) == 0.0
    ensures (exists i :: 0 <= i < |x| && x[i] != t) ==> Sum(Deviations(x, t)) > 0.0
  {
    var d := Deviations(x, t);
    DeviationsNonNegative(x, t);
    SumOfNonNegative(d);
    if forall i :: 0 <= i < |x| ==> x[i] == t {
      forall i | 0 <= i < |x| ensures d[i] == 0.0 {
        assert x[i] - t == 0.0;
      }
    }
    if exists i :: 0 <= i < |x| && x[i] != t {
      var i :| 0 <= i < |x| && x[i] != t;
      SquarePositive(x[i] - t);
      assert d[i] > 0.0;
    }
  }

  /** The algebra of one induction step of `DeviationsExpand`. */
  lemma ExpandStep(q: real, s: real, n: real, t: real, u: real, d: real,
                   q': real, s': real, n': real, d': real)
    requires d == q - Mul(2.0 * t, s) + Mul(n, Square(t))
    requires q' == q + Mul(u, u) && s' == s + u && n' == n + 1.0 && d' == d + Square(u - t)
    ensures d' == q' - Mul(2.0 * t, s') + Mul(n', Square(t))
  {
    calc {
      q' - Mul(2.0 * t, s') + Mul(n', Square(t));
      q + u * u - 2.0 * t * (s + u) + (n + 1.0) * (t * t);
      (q - 2.0 * t * s + n * (t * t)) + (u - t) * (u - t);
      d';
    }
  }

  /** Σ(xᵢ − t)² = Σxᵢ² − 2tΣxᵢ + n·t². */
  lemma {:induction false} DeviationsExpand(x: seq<real>, t: real)
    ensures Sum(Deviations(x, t)) == Dot(x, x) - Mul(2.0 * t, Sum(x)) + Mul(|x| as real, Square(t))
  {
    if x != [] {
      var init := x[..|x| - 1];
      DeviationsExpand(init, t);
      var d := Deviations(x, t);
      forall i | 0 <= i < |x| - 1 ensures d[..|x| - 1][i] == Deviations(init, t)[i] {
        assert init[i] == x[i];
      }
      assert d[..|x| - 1] == Deviations(init, t);
      ExpandStep(Dot(init, init), Sum(init), |init| as real, t, x[|x| - 1], Sum(Deviations(init, t)),
                 Dot(x, x), Sum(x), |x| as real, Sum(d));
    }
  }

  /** The algebra of `DenominatorAppend`. */
  lemma AppendStep(n: real, q: real, s: real, t: real, d: real, n': real, q': real, s': real)
    requires d == q - Mul(2.0 * t, s) + Mul(n, Square(t))
    requires n' == n + 1.0 && q' == q + Mul(t, t) && s' == s + t
    ensures Mul(n', q') - Mul(s', s') == (Mul(n, q) - Mul(s, s)) + d
  {
    calc {
      Mul(n', q') - Mul(s', s');
      (n + 1.0) * (q + t * t) - (s + t) * (s + t);
      (n * q - s * s) + (q - 2.0 * t * s + n * (t * t));
      (Mul(n, q) - Mul(s, s)) + d;
    }
  }

  /** Appending `t` raises the denominator by the squared deviations from `t`. */
  lemma DenominatorAppend(x: seq<real>, t: real)
    ensures Denominator(x + [t]) == Denominator(x) + Sum(Deviations(x, t))
  {
    var x' := x + [t];
    assert x'[..|x'| - 1] == x;
    assert x'[|x'| - 1] == t;
    DeviationsExpand(x, t);
    AppendStep(|x| as real, Dot(x, x), Sum(x), t, Sum(Deviations(x, t)), |x'| as real, Dot(x', x'), Sum(x'));
  }

  /** The denominator is never negative, and it is positive exactly when two x values differ. */
  lemma {:induction false} DenominatorSign(x: seq<real>)
    ensures Denominator(x) >= 0.0
    ensures Denominator(x) > 0.0 <==> HasDistinct(x)
  {
    if x != [] {
      var init, t := x[..|x| - 1], x[|x| - 1];
      assert x == init + [t];
      DenominatorSign(init);
      DenominatorAppend(init, t);
      DeviationsSign(init, t);
      if HasDistinct(x) && !HasDistinct(init) {
        var i, j :| 0 <= i < |x| && 0 <= j < |x| && x[i] != x[j];
        assert x[i] != t || x[j] != t;
      }
      if !HasDistinct(x) {
        forall k | 0 <= k < |init| ensures init[k] == t {
          assert x[k] == init[k];
        }
      }
    }
  }

  /** The value at `u` of the line with slope `a` and intercept `b`. */
  function LineAt(a: real, b: real, u: real): real
  {
    a * u + b
  }

  /** The point `(x[i], y[i])` lies on the line `y = a·x + b`. */
  predicate OnLineAt(x: seq<real>, y: seq<real>, a: real, b: real, i: nat)
    requires i < |x| && i < |y|
  {
    y[i] == LineAt(a, b, x[i])
  }

  /** Points on a line stay on it when the last one is dropped. */
  lemma OnLinePrefix(x: seq<real>, y: seq<real>, xs: seq<real>, ys: seq<real>, a: real, b: real)
    requires |x| == |y| && x != [] && xs == x[..|x| - 1] && ys == y[..|y| - 1]
    requires forall i :: 0 <= i < |x| ==> OnLineAt(x, y, a, b, i)
    ensures forall i :: 0 <= i < |xs| ==> OnLineAt(xs, ys, a, b, i)
  {
    forall i | 0 <= i < |xs| ensures OnLineAt(xs, ys, a, b, i) {
      assert OnLineAt(x, y, a, b, i);
    }
  }

  /** The algebra of one induction step of `SumOnLine`. */
  lemma SumOnLineStep(a: real, b: real, sx: real, sy: real, n: real, u: real, v: real,
                      sx': real, sy': real, n': real)
    requires sy == Mul(a, sx) + Mul(n, b) && v == LineAt(a, b, u)
    requires sx' == sx + u && sy' == sy + v && n' == n + 1.0
    ensures sy' == Mul(a, sx') + Mul(n', b)
  {
    calc {
      Mul(a, sx') + Mul(n', b);
      a * (sx + u) + (n + 1.0) * b;
      (a * sx + n * b) + (a * u + b);
      sy';
    }
  }

  /** The y values of points on the line `y = a·x + b` sum to `a·Σx + n·b`. */
  lemma {:induction false} SumOnLine(x: seq<real>, y: seq<real>, a: real, b: real)
    requires |x| == |y|
    requires forall i :: 0 <= i < |x| ==> OnLineAt(x, y, a, b, i)
    ensures Sum(y) == Mul(a, Sum(x)) + Mul(|x| as real, b)
  {
    if x != [] {
      var xs, ys := x[..|x| - 1], y[..|y| - 1];
      OnLinePrefix(x, y, xs, ys, a, b);
      assert OnLineAt(x, y, a, b, |x| - 1);
      SumOnLine(xs, ys, a, b);
      SumOnLineStep(a, b, Sum(xs), Sum(ys), |xs| as real, x[|x| - 1], y[|y| - 1], Sum(x), Sum(y), |x| as real);
    }
  }

  /** The algebra of one induction step of `DotOnLine`. */
  lemma DotOnLineStep(a: real, b: real, sx: real, xx: real, xy: real, u: real, v: real,
                      sx': real, xx': real, xy': real)
    requires xy == Mul(a, xx) + Mul(b, sx) && v == LineAt(a, b, u)
    requires sx' == sx + u && xx' == xx + Mul(u, u) && xy' == xy + Mul(u, v)
    ensures xy' == Mul(a, xx') + Mul(b, sx')
  {
    calc {
      Mul(a, xx') + Mul(b, sx');
      a * (xx + u * u) + b * (sx + u);
      (a * xx + b * sx) + u * (a * u + b);
      xy';
    }
  }

  /** For points on the line `y = a·x + b`, Σxy = a·Σx² + b·Σx. */
  lemma {:induction false} DotOnLine(x: seq<real>, y: seq<real>, a: real, b: real)
    requires |x| == |y|
    requires forall i :: 0 <= i < |x| ==> OnLineAt(x, y, a, b, i)
    ensures Dot(x, y) == Mul(a, Dot(x, x)) + Mul(b, Sum(x))
  {
    if x != [] {
      var xs, ys := x[..|x| - 1], y[..|y| - 1];
      OnLinePrefix(x, y, xs, ys, a, b);
      assert OnLineAt(x, y, a, b, |x| - 1);
      DotOnLine(xs, ys, a, b);
      DotOnLineStep(a, b, Sum(xs), Dot(xs, xs), Dot(xs, ys), x[|x| - 1], y[|y| - 1], Sum(x), Dot(x, x), Dot(x, y));
    }
  }

  /** The algebra of `RegressionOfLine`: the fit solves back to the line. */
  lemma FitOfLineSums(n: real, sx: real, sy: real, xy: real, xx: real, a: real, b: real)
    requires n > 0.0 && Mul(n, xx) - Mul(sx, sx) != 0.0
    requires sy == Mul(a, sx) + Mul(n, b) && xy == Mul(a, xx) + Mul(b, sx)
    ensures FitFromSums(n, sx, sy, xy, xx) == Regression(a, b)
  {
    var d := n * xx - sx * sx;
    var r := FitFromSums(n, sx, sy, xy, xx);
    assert n * xy - sx * sy == a * d;
    assert r.slope * d == a * d;
    assert r.slope == a;
    assert n * r.intercept == n * b;
  }

  /**
   * Points lying exactly on a line are fitted by that line, provided two of
   * the x values differ.
   */
  lemma RegressionOfLine(x: seq<real>, y: seq<real>, a: real, b: real)
    requires |x| == |y| && HasDistinct(x)
    requires forall i :: 0 <= i < |x| ==> OnLineAt(x, y, a, b, i)
    ensures LinearRegression(x, y) == Regression(a, b)
  {
    DenominatorSign(x);
    SumOnLine(x, y, a, b);
    DotOnLine(x, y, a, b);
    FitOfLineSums(|x| as real, Sum(x), Sum(y), Dot(x, y), Dot(x, x), a, b);
  }

  /** The x values of the forecast: the positions 0..n-1 of the prices. */
  function Indices(n: nat): (x: seq<real>)
    ensures |x| == n
    ensures forall i :: 0 <= i < n ==> x[i] == i as real
  {
    seq(n, i requires 0 <= i < n => i as real)
  }

  /** With two or more positions the least-squares denominator is positive. */
  lemma IndicesDenominatorPositive(n: nat)
    requires n >= 2
    ensures Denominator(Indices(n)) > 0.0
  {
    var x := Indices(n);
    assert x[0] != x[1];
    DenominatorSign(x);
  }

  /** The trend shown beside the forecast. */
  datatype Trend = Bullish | Bearish | Neutral | Unknown

  /** The forecast panel: the next-day and next-week prices and the trend. */
  datatype Prediction = Prediction(nextDay: real, nextWeek: real, trend: Trend)

  /** How many of the latest bars the forecast uses. */
  const ForecastDays := 30

  /** The fewest bars a forecast is made from. */
  const MinForecastDays := 10

  /** The slope beyond which the trend counts as rising or falling. */
  const TrendThreshold := 0.1

  /** What the panel shows when no forecast can be made. */
  const NoPrediction := Prediction(0.0, 0.0, Unknown)

  /** `Math.max(0, v)`. */
  function ClampAtZero(v: real): (r: real)
    ensures r >= 0.0 && r >= v
    ensures r == v || r == 0.0
  {
    if v > 0.0 then v else 0.0
  }

  /** The trend a fitted slope indicates. */
  function TrendOf(slope: real): Trend
  {
    if slope > TrendThreshold then Bullish
    else if slope < -TrendThreshold then Bearish
    else Neutral
  }

  /**
   * The computation of `updatePrediction` on the closing prices it selected:
   * the fitted line one and seven days past the last price, never below zero,
   * and the trend of its slope; nothing with fewer than ten prices.
   */
  function Forecast(prices: seq<real>): (p: Prediction)
    ensures |prices| < MinForecastDays ==> p == NoPrediction
    ensures |prices| >= MinForecastDays ==> p.nextDay >= 0.0 && p.nextWeek >= 0.0 && p.trend != Unknown
    ensures |prices| >= MinForecastDays ==>
      var fit := LinearRegression(Indices(|prices|), prices);
      && (p.trend == Bullish <==> fit.slope > TrendThreshold)
      && (p.trend == Bearish <==> fit.slope < -TrendThreshold)
  {
    if |prices| < MinForecastDays then NoPrediction
    else
      var n := |prices| as real;
      var fit := LinearRegression(Indices(|prices|), prices);
      Prediction(ClampAtZero(LineAt(fit.slope, fit.intercept, n)),
                 ClampAtZero(LineAt(fit.slope, fit.intercept, n + 7.0)),
                 TrendOf(fit.slope))
  }

  /**
   * Prices lying on a line are extrapolated along that line, clamped at zero,
   * and its slope decides the trend.
   */
  lemma ForecastOfLine(prices: seq<real>, a: real, b: real)
    requires |prices| >= MinForecastDays
    requires forall i :: 0 <= i < |prices| ==> prices[i] == LineAt(a, b, i as real)
    ensures var n := |prices| as real;
      Forecast(prices) == Prediction(ClampAtZero(LineAt(a, b, n)), ClampAtZero(LineAt(a, b, n + 7.0)), TrendOf(a))
  {
    var x := Indices(|prices|);
    assert x[0] != x[1];
    forall i | 0 <= i < |x| ensures OnLineAt(x, prices, a, b, i) {
    }
    RegressionOfLine(x, prices, a, b);
  }

  /** Flat prices forecast the same price and a neutral trend. */
  lemma ForecastOfFlatPrices(prices: seq<real>, c: real)
    requires |prices| >= MinForecastDays && c >= 0.0
    requires forall i :: 0 <= i < |prices| ==> prices[i] == c
    ensures Forecast(prices) == Prediction(c, c, Neutral)
  {
    forall i | 0 <= i < |prices| ensures prices[i] == LineAt(0.0, c, i as real) {
    }
    ForecastOfLine(prices, 0.0, c);
  }

  /** Thirty closes rising by one a day from 100 forecast 130 and 137, bullish. */
  lemma ForecastOfSteadyRise(prices: seq<real>)
    requires |prices| == ForecastDays
    requires forall i :: 0 <= i < |prices| ==> prices[i] == 100.0 + i as real
    ensures Forecast(prices) == Prediction(130.0, 137.0, Bullish)
  {
    forall i | 0 <= i < |prices| ensures prices[i] == LineAt(1.0, 100.0, i as real) {
    }
    ForecastOfLine(prices, 1.0, 100.0);
  }

  /**
   * `updatePrediction`: sorts the stock's history in place while taking its
   * latest thirty bars, then forecasts from their closing prices.
   */
  method UpdatePrediction(history: array<Point>) returns (p: Prediction)
    modifies history
    ensures history[..] == SortByDate(old(history[..]))
    ensures p == Forecast(Closes(FilteredData(old(history[..]), ForecastDays)))
    ensures history.Length < MinForecastDays ==> p == NoPrediction
  {
    var latest := GetFilteredData(history, ForecastDays);
    p := Forecast(Closes(latest));
  }
}
