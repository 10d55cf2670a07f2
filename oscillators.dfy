/**
 * The relative strength index, as the dashboard computes it: averages of the
 * FIRST `period` gains and losses only, not a smoothed running average.
 */
module Oscillators {
  import opened Sums

  /** The RSI reported when there is too little data. */
  const NeutralRsi := 50.0

  function GainOf(change: real): real { if change > 0.0 then change else 0.0 }

  function LossOf(change: real): real { if change < 0.0 then -change else 0.0 }

  /** The move from price `i` to price `i + 1` is not a fall. */
  predicate NoFallAt(prices: seq<real>, i: int)
    requires 0 <= i < |prices| - 1
  {
    prices[i + 1] >= prices[i]
  }

  /** The upward moves between consecutive prices (zero for a fall). */
  function Gains(prices: seq<real>): (g: seq<real>)
    ensures |g| == if prices == [] then 0 else |prices| - 1
  {
    if prices == [] then []
    else seq(|prices| - 1, i requires 0 <= i < |prices| - 1 => GainOf(prices[i + 1] - prices[i]))
  }

  /** The sizes of the downward moves between consecutive prices (zero for a rise). */
  function Losses(prices: seq<real>): (l: seq<real>)
    ensures |l| == if prices == [] then 0 else |prices| - 1
  {
    if prices == [] then []
    else seq(|prices| - 1, i requires 0 <= i < |prices| - 1 => LossOf(prices[i + 1] - prices[i]))
  }

  /** The RSI formula on the two averages: 100 when there is no average loss, else `100 - 100 / (1 + RS)` with `RS = avgGain / avgLoss`. */
  function RsiOfAverages(avgGain: real, avgLoss: real): (r: real)
    requires avgGain >= 0.0 && avgLoss >= 0.0
    ensures 0.0 <= r <= 100.0
    ensures r == 100.0 <==> avgLoss == 0.0
  {
    if avgLoss == 0.0 then 100.0
    else
      var rs := avgGain / avgLoss;
      100.0 - 100.0 / (1.0 + rs)
  }

  /** The average of the first `period` entries of `moves`. */
  function FirstAverage(moves: seq<real>, period: nat): real
    requires 0 < period <= |moves|
  {
    Sum(moves[..period]) / period as real
  }

  /** The RSI of `prices`: neutral with fewer than `period + 1` prices, else the formula on the first `period` moves. */
  function Rsi(prices: seq<real>, period: int): real
    requires period >= 1
  {
    if |prices| < period + 1 then NeutralRsi
    else
      MovesNonNegative(prices, period);
      RsiOfAverages(FirstAverage(Gains(prices), period), FirstAverage(Losses(prices), period))
  }

  /**
   * `calculateRSI`: collects the gains and losses of all consecutive moves,
   * then averages the first `period` of each.
   */
  method CalculateRsi(prices: seq<real>, period: int) returns (rsi: real)
    requires period >= 1
    ensures rsi == Rsi(prices, period)
    ensures |prices| < period + 1 ==> rsi == NeutralRsi
    ensures 0.0 <= rsi <= 100.0
  {
    RsiBounded(prices, period);
    if |prices| < period + 1 {
      return NeutralRsi;
    }
    var gains, losses := CollectMoves(prices);
    MovesNonNegative(prices, period);
    var avgGain := FirstAverage(gains, period);
    var avgLoss := FirstAverage(losses, period);
    if avgLoss == 0.0 {
      return 100.0;
    }
    var rs := avgGain / avgLoss;
    return 100.0 - 100.0 / (1.0 + rs);
  }

  /** The gain/loss loop of `calculateRSI`: one gain and one loss per consecutive pair of prices. */
  method CollectMoves(prices: seq<real>) returns (gains: seq<real>, losses: seq<real>)
    ensures gains == Gains(prices) && losses == Losses(prices)
  {
    gains, losses := [], [];
    if |prices| == 0 {
      return;
    }
    var i := 1;
    while i < |prices|
      invariant 1 <= i <= |prices|
      invariant |gains| == |losses| == i - 1
      invariant forall j :: 0 <= j < i - 1 ==> gains[j] == Gains(prices)[j]
      invariant forall j :: 0 <= j < i - 1 ==> losses[j] == Losses(prices)[j]
    {
      var change := prices[i] - prices[i - 1];
      gains := gains + [GainOf(change)];
      losses := losses + [LossOf(change)];
      i := i + 1;
    }
  }

  /** Dividing by a positive count keeps the sign of a sum and maps zero to zero only. */
  lemma AverageSign(sum: real, count: nat)
    requires count > 0
    ensures sum >= 0.0 ==> sum / count as real >= 0.0
    ensures sum / count as real == 0.0 <==> sum == 0.0
  {
  }

  /** The first average gain and loss are non-negative, and the average loss is zero exactly when none of the first `period` moves is a fall. */
  lemma MovesNonNegative(prices: seq<real>, period: nat)
    requires 0 < period <= |Gains(prices)|
    ensures FirstAverage(Gains(prices), period) >= 0.0
    ensures FirstAverage(Losses(prices), period) >= 0.0
    ensures FirstAverage(Losses(prices), period) == 0.0 <==> forall i :: 0 <= i < period ==> NoFallAt(prices, i)
  {
    MovesSums(prices, period);
    AverageSign(Sum(Gains(prices)[..period]), period);
    AverageSign(Sum(Losses(prices)[..period]), period);
  }

  lemma MovesSums(prices: seq<real>, period: nat)
    requires period <= |Gains(prices)|
    ensures Sum(Gains(prices)[..period]) >= 0.0
    ensures Sum(Losses(prices)[..period]) >= 0.0
    ensures Sum(Losses(prices)[..period]) == 0.0 <==> forall i :: 0 <= i < period ==> NoFallAt(prices, i)
  {
    GainsNonNegative(prices, period);
    SumOfNonNegative(Gains(prices)[..period]);
    LossesSum(prices, period);
  }

  /** The gain from price `i` to price `i + 1` is never negative. */
  lemma GainAt(prices: seq<real>, i: nat)
    requires i < |prices| - 1
    ensures Gains(prices)[i] >= 0.0
  {
    assert Gains(prices)[i] == GainOf(prices[i + 1] - prices[i]);
  }

  /** The loss from price `i` to price `i + 1` is never negative, and zero exactly when the move is not a fall. */
  lemma LossAt(prices: seq<real>, i: nat)
    requires i < |prices| - 1
    ensures Losses(prices)[i] >= 0.0
    ensures Losses(prices)[i] == 0.0 <==> NoFallAt(prices, i)
  {
    assert Losses(prices)[i] == LossOf(prices[i + 1] - prices[i]);
  }

  /** Each of the first `period` gains is non-negative. */
  lemma GainsNonNegative(prices: seq<real>, period: nat)
    requires period <= |Gains(prices)|
    ensures forall i :: 0 <= i < period ==> Gains(prices)[..period][i] >= 0.0
  {
    forall i | 0 <= i < period ensures Gains(prices)[..period][i] >= 0.0 {
      GainAt(prices, i);
    }
  }

  lemma LossesSum(prices: seq<real>, period: nat)
    requires period <= |Losses(prices)|
    ensures Sum(Losses(prices)[..period]) >= 0.0
    ensures Sum(Losses(prices)[..period]) == 0.0 <==> forall i :: 0 <= i < period ==> NoFallAt(prices, i)
  {
    LossesZeroIffNoFall(prices, period);
    SumOfNonNegative(Losses(prices)[..period]);
  }

  /** Each of the first `period` losses is non-negative, and zero exactly when that move is not a fall. */
  lemma LossesZeroIffNoFall(prices: seq<real>, period: nat)
    requires period <= |Losses(prices)|
    ensures forall i :: 0 <= i < period ==> Losses(prices)[..period][i] >= 0.0
    ensures (forall i :: 0 <= i < period ==> Losses(prices)[..period][i] == 0.0)
        <==> (forall i :: 0 <= i < period ==> NoFallAt(prices, i))
  {
    forall i | 0 <= i < period
      ensures Losses(prices)[..period][i] >= 0.0
      ensures Losses(prices)[..period][i] == 0.0 <==> NoFallAt(prices, i)
    {
      LossAt(prices, i);
    }
  }

  /** The RSI always lies in [0, 100]. */
  lemma RsiBounded(prices: seq<real>, period: int)
    requires period >= 1
    ensures 0.0 <= Rsi(prices, period) <= 100.0
  {
    if |prices| >= period + 1 {
      MovesNonNegative(prices, period);
    }
  }

  /** With enough prices, the RSI is exactly 100 if and only if none of the first `period` moves is a fall. */
  lemma RsiHundredIffNoEarlyFall(prices: seq<real>, period: int)
    requires period >= 1 && |prices| >= period + 1
    ensures Rsi(prices, period) == 100.0 <==> forall i :: 0 <= i < period ==> NoFallAt(prices, i)
  {
    MovesNonNegative(prices, period);
  }

  /** Only the first `period + 1` prices matter: later prices never change the RSI. */
  lemma RsiIgnoresLaterPrices(prices: seq<real>, period: int)
    requires period >= 1 && |prices| >= period + 1
    ensures Rsi(prices, period) == Rsi(prices[..period + 1], period)
  {
    var head := prices[..period + 1];
    assert Gains(head)[..period] == Gains(prices)[..period];
    assert Losses(head)[..period] == Losses(prices)[..period];
  }
}
