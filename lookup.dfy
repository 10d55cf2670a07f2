/**
 * Stock lookup over the data source's symbol map. The map is a sequence of
 * (key, record) entries in the order a `for...in` loop visits them.
 */
module Lookup {
  import opened Wrappers
  import opened Text
  import opened Market

  type StockMap = seq<(string, StockRecord)>

  /** The partial-match rule: the key contains the symbol, or the record has a non-empty name whose capitalised form contains it. */
  predicate PartialMatch(entry: (string, StockRecord), symbol: string)
  {
    Contains(entry.0, symbol)
    || (entry.1.name != [] && Contains(Upper(entry.1.name), symbol))
  }

  /**
   * Finds a stock: the record stored under exactly `symbol` if there is one,
   * else the first record in visiting order that partially matches, else none.
   */
  method FindStock(stocks: StockMap, symbol: string) returns (r: Option<StockRecord>)
    ensures (exists i :: 0 <= i < |stocks| && stocks[i].0 == symbol) ==>
      exists i :: 0 <= i < |stocks| && stocks[i].0 == symbol && r == Some(stocks[i].1)
        && forall j :: 0 <= j < i ==> stocks[j].0 != symbol
    ensures (forall i :: 0 <= i < |stocks| ==> stocks[i].0 != symbol) && r.Some? ==>
      exists i :: 0 <= i < |stocks| && PartialMatch(stocks[i], symbol) && r == Some(stocks[i].1)
        && forall j :: 0 <= j < i ==> !PartialMatch(stocks[j], symbol)
    ensures r.None? <==> forall i :: 0 <= i < |stocks| ==> !PartialMatch(stocks[i], symbol)
  {
    var i := 0;
    while i < |stocks|
      invariant 0 <= i <= |stocks|
      invariant forall j :: 0 <= j < i ==> stocks[j].0 != symbol
    {
      if stocks[i].0 == symbol {
        return Some(stocks[i].1);
      }
      i := i + 1;
    }
    i := 0;
    while i < |stocks|
      invariant 0 <= i <= |stocks|
      invariant forall j :: 0 <= j < i ==> !PartialMatch(stocks[j], symbol)
    {
      if PartialMatch(stocks[i], symbol) {
        return Some(stocks[i].1);
      }
      i := i + 1;
    }
    return None;
  }
}
