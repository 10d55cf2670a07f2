/**
 * The two input validators of `ErrorHandler`: the search-box symbol check and
 * the stock-record check. Each `throw` of the source becomes a `Failure`.
 */
module Validation {
  import opened Wrappers
  import opened Text
  import opened Market

  /** Why a search term is refused, one per `throw` of the symbol validator. */
  datatype SymbolError = NotAString | EmptySymbol | SymbolTooLong | NotLetters

  /** The most characters a search term may have before trimming. */
  const MaxSymbolLength := 10

  /**
   * Validates and normalises a search term. The length limit applies to the
   * raw term, the letters-only rule to the trimmed one; the accepted symbol is
   * the trimmed term in capitals.
   */
  function ValidateSymbol(symbol: string): (r: Result<string, SymbolError>)
    ensures r.Success? <==> Trim(symbol) != [] && |symbol| <= MaxSymbolLength && AllAsciiLetters(Trim(symbol))
    ensures r.Success? ==> 0 < |r.value| <= MaxSymbolLength && IsAsciiUpper(r.value)
    ensures r.Success? ==>
              && |r.value| == |Trim(symbol)|
              && forall i :: 0 <= i < |r.value| ==> r.value[i] == UpperChar(Trim(symbol)[i])
    ensures symbol == [] ==> r == Failure(NotAString)
    ensures symbol != [] && Trim(symbol) == [] ==> r == Failure(EmptySymbol)
    ensures Trim(symbol) != [] && |symbol| > MaxSymbolLength ==> r == Failure(SymbolTooLong)
    ensures Trim(symbol) != [] && |symbol| <= MaxSymbolLength && !AllAsciiLetters(Trim(symbol)) ==> r == Failure(NotLetters)
  {
    if symbol == [] then Failure(NotAString)
    else if Trim(symbol) == [] then Failure(EmptySymbol)
    else if |symbol| > MaxSymbolLength then Failure(SymbolTooLong)
    else if !AllAsciiLetters(Trim(symbol)) then Failure(NotLetters)
    else
      UpperOfLetters(Trim(symbol));
      Success(Upper(Trim(symbol)))
  }

  /** A symbol the validator produced passes the validator again unchanged. */
  lemma ValidateSymbolIdempotent(symbol: string)
    requires ValidateSymbol(symbol).Success?
    ensures ValidateSymbol(ValidateSymbol(symbol).value) == ValidateSymbol(symbol)
  {
    var v := ValidateSymbol(symbol).value;
    assert AllAsciiLetters(v);
    assert forall i :: 0 <= i < |v| ==> !IsSpace(v[i]);
    TrimWithoutSpace(v);
    UpperOfLetters(v);
    assert Upper(v) == v;
    assert ValidateSymbol(v) == Success(Upper(v));
  }

  /** Why a stock record is refused; `HighBelowLow` names the first offending bar. */
  datatype DataError = NoHistoricalData | HighBelowLow(index: nat)

  /**
   * Checks a stock record's history: it must not be empty, and on every bar
   * the high must not be below the low. Reports the first bad bar.
   */
  method ValidateStockData(stock: StockRecord) returns (r: Result<bool, DataError>)
    ensures r == Failure(NoHistoricalData) <==> stock.historicalData == []
    ensures r.Success? <==>
              && stock.historicalData != []
              && forall i :: 0 <= i < |stock.historicalData| ==> stock.historicalData[i].high >= stock.historicalData[i].low
    ensures r.Success? ==> r.value
    ensures r.Failure? && r.error.HighBelowLow? ==>
      && r.error.index < |stock.historicalData|
      && stock.historicalData[r.error.index].high < stock.historicalData[r.error.index].low
      && forall j :: 0 <= j < r.error.index ==> stock.historicalData[j].high >= stock.historicalData[j].low
  {
    var history := stock.historicalData;
    if |history| == 0 {
      return Failure(NoHistoricalData);
    }
    var i := 0;
    while i < |history|
      invariant 0 <= i <= |history|
      invariant forall j :: 0 <= j < i ==> history[j].high >= history[j].low
    {
      if history[i].high < history[i].low {
        return Failure(HighBelowLow(i));
      }
      i := i + 1;
    }
    return Success(true);
  }
}
