/**
 * The data model shared by the dashboard's engines: one daily price bar and
 * one stock record. Dates are abstracted to day numbers: the source only
 * ever compares them.
 */
module Market {

  /** One OHLCV bar of a stock's history. */
  datatype Point = Point(date: int, open: real, high: real, low: real, close: real, volume: real)

  /** A stock as the external data source provides it. */
  datatype StockRecord = StockRecord(symbol: string, name: string, currentPrice: real, historicalData: seq<Point>)

  /** The closing prices of a point sequence, in the same order. */
  function Closes(points: seq<Point>): (prices: seq<real>)
    ensures |prices| == |points|
    ensures forall i :: 0 <= i < |points| ==> prices[i] == points[i].close
  {
    seq(|points|, i requires 0 <= i < |points| => points[i].close)
  }
}
