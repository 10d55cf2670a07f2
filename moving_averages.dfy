/**
 * Simple and exponential moving averages. Each source routine builds its
 * output array with `push` in an index loop; each is modelled as a method
 * proved against a specification function.
 */
module MovingAverages {
  import opened Wrappers
  import opened Sums

  /** The arithmetic mean of a non-empty window. */
  function Mean(w: seq<real>): real
    requires w != []
  {
    Sum(w) / |w| as real
  }

  /** The `period` prices ending at index `i`. */
  function WindowAt(prices: seq<real>, period: nat, i: nat): (w: seq<real>)
    requires 0 < period <= i + 1 <= |prices|
    ensures |w| == period
  {
    prices[i + 1 - period..i + 1]
  }

  /** The mean of a window lies between any bounds of its prices. */
  lemma MeanWithinRange(w: seq<real>, lo: real, hi: real)
    requires w != []
    requires forall i :: 0 <= i < |w| ==> lo <= w[i] <= hi
    ensures lo <= Mean(w) <= hi
  {
    SumBetween(w, lo, hi);
    var n := |w| as real;
    assert Sum(w) / n >= (n * lo) / n;
    assert Sum(w) / n <= (n * hi) / n;
  }

  /**
   * `calculateSMA`: empty for an empty price list or a period outside
   * 1..|prices|; otherwise one entry per price, absent for the first
   * `period - 1` and then the mean of the `period` prices ending there.
   */
  method CalculateSma(prices: seq<real>, period: int) returns (sma: seq<Option<real>>)
    ensures prices == [] || period <= 0 || period > |prices| ==> sma == []
    ensures 0 < period <= |prices| ==>
              && |sma| == |prices|
              && (forall i :: 0 <= i < period - 1 ==> sma[i] == None)
              && (forall i :: period - 1 <= i < |prices| ==> sma[i] == Some(Mean(WindowAt(prices, period, i))))
  {
    if |prices| == 0 || period <= 0 || period > |prices| {
      return [];
    }
    sma := [];
    var i := 0;
    while i < |prices|
      invariant 0 <= i <= |prices|
      invariant |sma| == i
      invariant forall j :: 0 <= j < i && j < period - 1 ==> sma[j] == None
      invariant forall j :: period - 1 <= j < i ==> sma[j] == Some(Mean(WindowAt(prices, period, j)))
    {
      if i < period - 1 {
        sma := sma + [None];
      } else {
        var sum := Sum(prices[i - period + 1..i + 1]);
        sma := sma + [Some(sum / period as real)];
      }
      i := i + 1;
    }
  }

  /** Consecutive simple averages differ by the price that enters the window less the one that leaves it, over the period. */
  lemma SmaSlides(prices: seq<real>, period: nat, i: nat)
    requires 0 < period <= i < |prices|
    ensures Mean(WindowAt(prices, period, i))
      == Mean(WindowAt(prices, period, i - 1)) + (prices[i] - prices[i - period]) / period as real
  {
    var prev, cur := WindowAt(prices, period, i - 1), WindowAt(prices, period, i);
    var mid := prices[i + 1 - period..i];
    assert cur[..|cur| - 1] == mid;
    assert Sum(cur) == Sum(mid) + prices[i];
    SumFront(prev);
    assert prev[1..] == mid;
    assert Sum(prev) == prices[i - period] + Sum(mid);
    var n := period as real;
    assert Sum(cur) / n == (Sum(prev) + (prices[i] - prices[i - period])) / n;
  }

  /** The EMA smoothing factor `2 / (period + 1)`. */
  function Multiplier(period: nat): real
  {
    2.0 / (period as real + 1.0)
  }

  /** One EMA step: the new price weighted by `k`, the previous average by `1 - k`. */
  function Blend(price: real, previous: real, k: real): real
  {
    price * k + previous * (1.0 - k)
  }

  /** The exponential average at index `i` with smoothing factor `k`, seeded with the first price. */
  function EmaAt(prices: seq<real>, k: real, i: nat): real
    requires i < |prices|
  {
    if i == 0 then prices[0] else Blend(prices[i], EmaAt(prices, k, i - 1), k)
  }

  /** The EMA series `calculateEMA` returns: empty for an empty price list or a non-positive period, else one value per price. */
  function Ema(prices: seq<real>, period: int): (r: seq<real>)
    ensures |r| == if prices == [] || period <= 0 then 0 else |prices|
    ensures r != [] ==> r[0] == prices[0]
  {
    if prices == [] || period <= 0 then []
    else seq(|prices|, i requires 0 <= i < |prices| => EmaAt(prices, Multiplier(period), i))
  }

  /**
   * `calculateEMA`: empty for an empty price list or a non-positive period;
   * otherwise starts at the first price and then blends each price with the
   * previous average, weighting the price by `2 / (period + 1)`.
   */
  method CalculateEma(prices: seq<real>, period: int) returns (ema: seq<real>)
    ensures ema == Ema(prices, period)
    ensures prices == [] || period <= 0 ==> ema == []
    ensures prices != [] && period > 0 ==>
              && |ema| == |prices| && ema[0] == prices[0]
              && forall i :: 0 < i < |prices| ==> ema[i] == Blend(prices[i], ema[i - 1], Multiplier(period))
  {
    if |prices| == 0 || period <= 0 {
      return [];
    }
    var multiplier := Multiplier(period);
    ema := [];
    var i := 0;
    while i < |prices|
      invariant 0 <= i <= |prices|
      invariant |ema| == i
      invariant forall j :: 0 <= j < i ==> ema[j] == EmaAt(prices, multiplier, j)
    {
      if i == 0 {
        ema := ema + [prices[i]];
      } else {
        ema := ema + [Blend(prices[i], ema[i - 1], multiplier)];
      }
      i := i + 1;
    }
  }

  /** For a positive period the smoothing factor lies in (0, 1]. */
  lemma MultiplierInUnit(period: nat)
    requires period >= 1
    ensures 0.0 < Multiplier(period) <= 1.0
  {
  }

  lemma MulNonNegative(u: real, v: real)
    requires u >= 0.0 && v >= 0.0
    ensures u * v >= 0.0
  {
  }

  /** A convex blend of two values in [lo, hi] stays in [lo, hi]. */
  lemma BlendWithinRange(a: real, b: real, k: real, lo: real, hi: real)
    requires 0.0 <= k <= 1.0
    requires lo <= a <= hi && lo <= b <= hi
    ensures lo <= Blend(a, b, k) <= hi
  {
    MulNonNegative(a - lo, k);
    MulNonNegative(b - lo, 1.0 - k);
    MulNonNegative(hi - a, k);
    MulNonNegative(hi - b, 1.0 - k);
    calc {
      Blend(a, b, k) - lo;
      (a - lo) * k + (b - lo) * (1.0 - k);
    >= 0.0;
    }
    calc {
      hi - Blend(a, b, k);
      (hi - a) * k + (hi - b) * (1.0 - k);
    >= 0.0;
    }
  }

  lemma {:induction false} EmaAtWithinRange(prices: seq<real>, k: real, i: nat, lo: real, hi: real)
    requires i < |prices| && 0.0 <= k <= 1.0
    requires forall j :: 0 <= j <= i ==> lo <= prices[j] <= hi
    ensures lo <= EmaAt(prices, k, i) <= hi
  {
    if i > 0 {
      EmaAtWithinRange(prices, k, i - 1, lo, hi);
      BlendWithinRange(prices[i], EmaAt(prices, k, i - 1), k, lo, hi);
    }
  }

  /** For a positive period, every EMA value lies within any bounds of the prices up to it. */
  lemma EmaWithinRange(prices: seq<real>, period: int, i: nat, lo: real, hi: real)
    requires period >= 1 && i < |prices|
    requires forall j :: 0 <= j <= i ==> lo <= prices[j] <= hi
    ensures lo <= Ema(prices, period)[i] <= hi
  {
    MultiplierInUnit(period);
    EmaAtWithinRange(prices, Multiplier(period), i, lo, hi);
  }

  /** With period 1 the EMA is the price series itself. */
  lemma EmaPeriodOne(prices: seq<real>)
    ensures Ema(prices, 1) == prices
  {
    assert Multiplier(1) == 1.0;
    forall i | 0 <= i < |prices| ensures EmaAt(prices, 1.0, i) == prices[i] {
      if i > 0 { assert Blend(prices[i], EmaAt(prices, 1.0, i - 1), 1.0) == prices[i]; }
    }
  }
}
