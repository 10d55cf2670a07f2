/**
 * MACD: the 12-period EMA less the 26-period EMA, its own 9-period EMA as the
 * signal line, and their difference as the histogram. Only the latest value
 * of each line is reported.
 */
module Macd {
  import opened MovingAverages

  const FastPeriod := 12
  const SlowPeriod := 26
  const SignalPeriod := 9

  datatype MacdValues = MacdValues(macd: real, signal: real, histogram: real)

  /** The value reported when there are fewer than `SlowPeriod` prices. */
  const NoMacd := MacdValues(0.0, 0.0, 0.0)

  /** The MACD line: fast EMA less slow EMA, index by index. */
  function MacdLine(prices: seq<real>): (line: seq<real>)
    requires prices != []
    ensures |line| == |prices|
  {
    var fast, slow := Ema(prices, FastPeriod), Ema(prices, SlowPeriod);
    seq(|prices|, i requires 0 <= i < |prices| => fast[i] - slow[i])
  }

  function Last(s: seq<real>): real
    requires s != []
  {
    s[|s| - 1]
  }

  /**
   * `calculateMACD`: the all-zero triple with fewer than 26 prices; otherwise
   * the latest MACD value, the latest signal value, and the histogram built by
   * aligning the signal line with the tail of the MACD line. The signal line
   * is as long as the MACD line, so the histogram is MACD less signal.
   */
  function CalculateMacd(prices: seq<real>): (r: MacdValues)
    ensures |prices| < SlowPeriod ==> r == NoMacd
    ensures |prices| >= SlowPeriod ==>
              && r.macd == Last(Ema(prices, FastPeriod)) - Last(Ema(prices, SlowPeriod))
              && r.signal == Last(Ema(MacdLine(prices), SignalPeriod))
              && r.histogram == r.macd - r.signal
  {
    if |prices| < SlowPeriod then NoMacd
    else
      var macdLine := MacdLine(prices);
      var signalLine := Ema(macdLine, SignalPeriod);
      var offset := |macdLine| - |signalLine|;
      var histogram := seq(|signalLine|, i requires 0 <= i < |signalLine| => macdLine[offset + i] - signalLine[i]);
      MacdValues(Last(macdLine), Last(signalLine), Last(histogram))
  }

  /** A flat price series has no momentum: all three MACD values are zero. */
  lemma MacdOfFlatPrices(prices: seq<real>, c: real)
    requires forall i :: 0 <= i < |prices| ==> prices[i] == c
    ensures CalculateMacd(prices) == NoMacd
  {
    if |prices| >= SlowPeriod {
      var n := |prices|;
      EmaWithinRange(prices, FastPeriod, n - 1, c, c);
      EmaWithinRange(prices, SlowPeriod, n - 1, c, c);
      var line := MacdLine(prices);
      forall i | 0 <= i < n ensures line[i] == 0.0 {
        EmaWithinRange(prices, FastPeriod, i, c, c);
        EmaWithinRange(prices, SlowPeriod, i, c, c);
      }
      EmaWithinRange(line, SignalPeriod, n - 1, 0.0, 0.0);
    }
  }
}
