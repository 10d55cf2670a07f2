# Stock market analysis dashboard: analysis core

This project models the computational core of a browser dashboard for stock
analysis (`script.js`). The model covers these parts:

- **Input validation.** `ErrorHandler.validateStockSymbol` trims a search
  term, limits its length, accepts letters only, and capitalises it.
  `ErrorHandler.validateStockData` refuses a stock record with an empty
  history or with a bar whose high is below its low.
- **Stock lookup.** `findStock` returns the record stored under the exact
  symbol. Failing that, it returns the first record whose key contains the
  symbol or whose capitalised name contains it.
- **Period selection.** `getFilteredData` sorts a stock's price history in
  place by date and returns its latest `days` bars.
- **Technical indicators.** The simple moving average (SMA), the exponential
  moving average (EMA), the relative strength index (RSI), and MACD (the
  difference of a 12- and a 26-period EMA, with a 9-period signal line).
- **Forecast.** `linearRegression` and `updatePrediction` fit a least-squares
  line to the latest thirty closing prices. They extrapolate it one and seven
  days ahead, clamp both values at zero, and classify the slope as bullish,
  bearish or neutral.

Numbers are modelled as `real`, and dates as integer day numbers.
A routine that catches its own error and returns a fallback (`[]`, `null`,
`50`, the zero MACD, the zero fit) is modelled with that fallback as an
ordinary result. The two validators, which throw, return a `Result` whose
`Failure` says which check refused the input.

Modules:

- `Wrappers`: `Option`, `Result`.
- `Market`: price bars and stock records.
- `Sums`: sums and dot products of sequences.
- `Text`: ECMAScript `trim`, ASCII `toUpperCase`, `includes`.
- `Validation`: the two validators.
- `Lookup`: `findStock`.
- `Window`: the in-place insertion sort and `getFilteredData`.
- `MovingAverages`: SMA and EMA.
- `Oscillators`: RSI.
- `Macd`: MACD.
- `Forecast`: linear regression and the prediction.

Routines that loop and push into an array, or that sort in place, are
`method`s proved against specification functions. The properties are
proved about those functions.

## Model

| member | source | states |
|---|---|---|
| Validation.ValidateSymbol | script.js:60-78 | Success exactly when the trimmed term is non-empty, the raw term has at most 10 characters, and the trimmed term is all ASCII letters. The accepted symbol is the trimmed term in capitals: non-empty, at most 10 characters, all upper case. Each failure reason holds on the inputs that reach its check. |
| Validation.ValidateSymbolIdempotent | script.js:60-78 | A symbol the validator accepted is accepted again, unchanged. |
| Validation.ValidateStockData | script.js:80-119 | Fails with NoHistoricalData exactly when the history is empty. Succeeds exactly when the history is non-empty and no bar has its high below its low. Otherwise fails with HighBelowLow(i), where bar i is the first bar whose high is below its low. |
| Text.TrimIsCore | script.js:65 | The trimmed term is a contiguous slice of the term, neither end of it is whitespace, and only whitespace was removed around it. |
| Text.Contains | script.js:293-294 | `includes` holds exactly when the substring occurs at some position. |
| Text.UpperOfLetters | script.js:77 | Capitalising an all-letter string gives an all-upper-case letter string of the same length. |
| Lookup.FindStock | script.js:277-304 | Returns the first record stored under exactly the symbol when one exists. Otherwise returns the first record in visiting order whose key contains the symbol, or whose non-empty name capitalised contains it. Returns none exactly when no record matches even partially. |
| Window.SortByDateSorted | script.js:373 | The date sort yields a sequence in ascending date order. |
| Window.SortByDatePermutes | script.js:373 | The date sort is a permutation of its input. |
| Window.SortByDateStable | script.js:373 | The date sort keeps the original relative order of bars with the same date. |
| Window.StableSortIsUnique | script.js:373 | Any date-sorted arrangement that keeps the order of same-dated bars is exactly the model's sort, so every stable sort agrees with it. |
| Window.InsertInPlace | script.js:373 | One insertion-sort step on the array: the first i+1 cells become the sorted prefix with `a[i]` inserted after every bar with the same or an earlier date; the rest of the array is unchanged. |
| Window.SortInPlace | script.js:373 | Sorts the array in place so that it holds the stable date sort of its old contents. |
| Window.FilteredData | script.js:363-379 | Empty for non-positive days. Otherwise min(days, length) bars, sorted by date, drawn from the history, and every bar left out is dated no later than every bar kept. |
| Window.GetFilteredData | script.js:363-379 | Leaves the array untouched for non-positive days. Otherwise sorts it in place by date. Returns the latest `days` bars as FilteredData describes. |
| MovingAverages.CalculateSma | script.js:649-676 | Empty for an empty price list or a period outside 1..length. Otherwise one entry per price: none for the first period-1 entries, then the mean of the period prices ending there. |
| MovingAverages.MeanWithinRange | script.js:664-668 | Every SMA value lies within any bounds of the prices in its window. |
| MovingAverages.SmaSlides | script.js:664-668 | Consecutive SMA values differ by (entering price − leaving price) / period. |
| MovingAverages.CalculateEma | script.js:679-708 | Empty for an empty price list or a non-positive period. Otherwise it starts at the first price, and each later value weights the price by 2/(period+1) and the previous value by the rest. |
| MovingAverages.MultiplierInUnit | script.js:690 | For a positive period the smoothing factor lies in (0, 1]. |
| MovingAverages.EmaWithinRange | script.js:679-708 | Every EMA value lies within any bounds of the prices up to it. |
| MovingAverages.EmaPeriodOne | script.js:679-708 | With period 1 the EMA equals the price series. |
| Oscillators.CollectMoves | script.js:720-724 | One gain and one loss per consecutive pair of prices: a rise is a gain, a fall's size is a loss, and the other entry is zero. |
| Oscillators.RsiOfAverages | script.js:733-738 | The RSI formula stays within [0, 100] and gives 100 exactly when the average loss is zero. |
| Oscillators.CalculateRsi | script.js:711-743 | 50 with fewer than period+1 prices. Otherwise the RSI of the first `period` average gain and loss. Always within [0, 100]. |
| Oscillators.MovesNonNegative | script.js:720-731 | The first average gain and loss are non-negative. The average loss is zero exactly when none of the first `period` moves is a fall. |
| Oscillators.RsiBounded | script.js:711-743 | The RSI always lies within [0, 100]. |
| Oscillators.RsiHundredIffNoEarlyFall | script.js:730-735 | With enough prices the RSI is 100 exactly when none of the first `period` moves is a fall. |
| Oscillators.RsiIgnoresLaterPrices | script.js:730-731 | Only the first period+1 prices affect the RSI. |
| Macd.CalculateMacd | script.js:746-777 | The zero triple with fewer than 26 prices. Otherwise MACD is the last 12-EMA minus the last 26-EMA, signal is the last 9-EMA of the MACD line, and histogram is MACD minus signal. |
| Macd.MacdOfFlatPrices | script.js:746-777 | A flat price series gives the zero triple. |
| Forecast.FitFromSums | script.js:840-846 | With a zero denominator, the zero fit. Otherwise the slope and intercept satisfy the least-squares normal equations of the four sums. |
| Forecast.LinearRegression | script.js:828-853 | The zero fit for mismatched or empty inputs, or when the denominator is zero. |
| Forecast.DenominatorSign | script.js:840 | n·Σx² − (Σx)² is never negative. It is positive exactly when two x values differ. |
| Forecast.IndicesDenominatorPositive | script.js:866-868 | For the positions 0..n−1 with n ≥ 2 the denominator is positive, so the zero-denominator fallback never fires in the forecast. |
| Forecast.RegressionOfLine | script.js:828-853 | Points lying exactly on a line, with two distinct x values, are fitted by exactly that line. |
| Forecast.ClampAtZero | script.js:877-878 | `Math.max(0, v)`: non-negative, at least v, and either v or 0. |
| Forecast.Forecast | script.js:856-909 | No prediction ($0.00, $0.00, Unknown) with fewer than 10 prices. Otherwise both prices are non-negative, and the trend is Bullish exactly when the fitted slope exceeds 0.1, Bearish exactly when it is below −0.1, else Neutral. |
| Forecast.ForecastOfLine | script.js:856-909 | Prices lying on a line are extrapolated along that line to n and n+7, clamped at zero, with the trend of its slope. |
| Forecast.ForecastOfFlatPrices | script.js:856-909 | Flat non-negative prices forecast the same price for both horizons and a Neutral trend. |
| Forecast.ForecastOfSteadyRise | script.js:856-909 | Thirty closes rising by 1 from 100 forecast 130 and 137 and a Bullish trend. |
| Forecast.UpdatePrediction | script.js:856-909 | Sorts the history in place by date and forecasts from the closes of its latest 30 bars. With fewer than 10 bars the result is no prediction. |
| Market.Closes | script.js:865 | The closing prices of the bars, one per bar, in order. |

## Left out

- The DOM is not modelled: element look-ups, `textContent`, CSS classes, the loading spinner, the charts, timers, and the `toFixed(2)` formatting. `Forecast.UpdatePrediction` returns the three displayed values as a `Prediction` instead of writing them.
- Error display and logging (`ErrorHandler.showError`, `console`) are left out. A caught error is modelled only by the fallback value it leads to.
- The global `currentStock`, and the early return when there is none, are left out. `Forecast.UpdatePrediction` takes the history array directly.
- Floating point is modelled as exact `real` arithmetic. The model has no NaN, so the `isNaN` checks, the `|| 0` defaults of `calculateMACD`, and the "Invalid numeric data" error of `validateStockData` are not modelled.
- Dates are integer day numbers. Parsing date strings with `new Date` is not modelled.
- `Validation.ValidateSymbol`: JavaScript type checks are not modelled, because the model is typed. Of the `!symbol || typeof symbol !== 'string'` check only the empty-string case remains, as `NotAString`.
- `Validation.ValidateStockData`: missing-field and `typeof` checks on the record and its bars are not modelled, because the datatypes always carry every field.
- `Text.Upper` capitalises ASCII letters only. The full Unicode `toUpperCase` is not modelled. For symbols accepted by the validator this makes no difference, because they are ASCII letters. Lengths count characters rather than UTF-16 code units.
- `Lookup.FindStock`: the name match capitalises record names with the ASCII-only `Text.Upper`. JavaScript's `toUpperCase` also maps some non-ASCII letters to ASCII ones ('ß' to "SS", 'ı' to "I", 'ſ' to "S", 'ﬁ' to "FI"). So a search for "STRASSE" finds a record named "Straße AG" in the dashboard but not in the model.
- `Lookup.FindStock`: the symbol map is a sequence of entries in `for...in` visiting order. The "Stock data not available" guard for a missing map is not modelled.
- `Oscillators.CalculateRsi`: requires a period of at least 1, the only kind the dashboard passes (the default 14). With period 0 and non-empty prices the source divides zero by zero and returns NaN, which `real` cannot express. A negative period passes the source's length check. Then `slice(0, period)` drops the last |period| moves, and the sums are divided by a negative count; for example, period −1 gives 100 on [1, 2, 3] and 0 on [3, 2, 1]. That behaviour is not modelled, because no caller passes a negative period.
- `Window.SortInPlace` is one particular stable sort (insertion sort). Any stable engine sort yields the same result by `Window.StableSortIsUnique`. An unstable engine sort could order same-dated bars differently, and that is not modelled.
- The length checks in `calculateRSI` and `calculateMACD` that can never fail once the earlier checks pass have no separate error path.
- The technical-indicator and chart-drawing routines that call these calculations only to display them are not part of this model.
- The prediction uses a fixed window of 30 bars, hard-coded in `updatePrediction`. The model follows the code rather than a chart period selected by the user.
