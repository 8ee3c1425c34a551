# fomo investment calculator — a Dafny model of the calculation pipeline

fomo asks for a stock or ETF, a purchase date, an optional sell date and an
amount. It then tells you what the investment would be worth at the end of
the range. The page fetches the daily closing prices and runs three
calculations on them:

- `calculateInvestment` works out the outcome from the amount and the first
  and last prices: shares bought, current value, profit and profit
  percentage.
- `generateChartData` turns each price into a chart point holding the value
  of the shares on that day.
- `getFunStats` builds the list of "fun" statistics: the daily return, how
  many coffees and iPhones the profit buys, and the annualized return.

This project models those three calculations and the way the page selects
their inputs from the fetched series. It proves the relations the code
promises.

Modules:

- `Wrappers` (`wrappers.dfy`): `Option` and `Result`.
- `Types` (`types.dfy`): `HistoricalPrice`, `InvestmentResult` and
  `ChartDataPoint`, mirroring the interfaces in `types/index.ts`.
- `Calculations` (`calculations.dfy`): the three calculations and their
  properties.
  - `CalculateInvestment` and `GenerateChartData` are pure functions.
  - `GetFunStats` is a method that appends one entry at a time, like the
    source's `stats.push`. Its contract ties the result to the function
    `FunStats`, and the lemmas state what the source promises about
    `FunStats`.
- `Page` (`page.dfy`): `Calculate`, the page's pipeline over a series that has
  already been fetched, plus worked examples.

Modelling choices:

- Numbers are exact `real`s, not IEEE doubles. Counts are `Floor`s of reals.
- A date is an integer day number. The price series gives dates as ISO
  `YYYY-MM-DD` strings, and JavaScript parses them as UTC midnight. So the
  source's floored millisecond difference divided by a day's length is
  exactly the difference of the two day numbers.
- Each statistic keeps its kind and its computed number:
  - `DailyReturn(dollars)`
  - `Coffees(coffees)`
  - `IPhones(iphones)`
  - `AnnualizedReturn(percent)`

  `Label()` gives the label the source shows. `Noun()` gives the word after a
  count: always "coffees"; "iPhone", or "iPhones" when the count is above one.
- Where the source divides by `daysDiff` with no guard, the daily return is
  an `Option`. It is `None` when start and end fall on the same day; there
  JavaScript would produce `Infinity` or `NaN`. The entry is still emitted
  first, as in the source.
- The source divides by `initialPrice` and `initialInvestment` without a
  guard. `CalculateInvestment` therefore requires both to be positive. The
  page checks that the amount is positive: `canCalculate`, app/page.tsx:22-25.
  Nothing checks that the first price is positive, so `Calculate` requires it.
- At the edges the model follows the code:
  - Same start and end day: the code still emits "Daily Return" (with a
    non-finite value) and leaves out "Annualized Return", because `years > 0`
    fails. It does not raise an error.
  - The coffee entry always says "coffees", even for a count of one.

## Model

| member | source | states |
|---|---|---|
| `Calculations.CalculateInvestment` | lib/calculations.ts:3-26 | the five inputs are passed through unchanged; the outcome satisfies `IsOutcome`: shares × initial price = invested sum, value = shares × current price, profit = value − invested sum, percentage × invested sum = 100 × profit; value, profit and percentage are the invested sum scaled by the price ratio; profit is positive, zero or negative exactly when the current price is above, equal to or below the initial price |
| `Calculations.ProfitScales` | lib/calculations.ts:10-12 | profit × initial price = invested sum × price change; profit > 0 iff the price rose, and < 0 iff it fell |
| `Calculations.OutcomeDeterminedByInputs` | lib/calculations.ts:10-25 | any record satisfying the outcome invariants is exactly what `CalculateInvestment` builds from its amount, prices and dates |
| `Calculations.GenerateChartData` | lib/calculations.ts:28-37 | one point per price, in order, with the same length; the point keeps the date and price, and its value is price × shares |
| `Calculations.ChartDataAppend` | lib/calculations.ts:32-36 | charting a concatenation is the concatenation of the charts: the map keeps order and neither drops nor adds points |
| `Calculations.ChartPoint` | lib/calculations.ts:33-35 | no contract of its own: the point of one observation (its date, price × shares, its price); `GenerateChartData` states what each point holds |
| `Calculations.ChartValueIsGrowth` | lib/calculations.ts:34 | for an outcome, the value at a price is the invested sum scaled by price / initial price; at the initial price it is the invested sum |
| `Calculations.ChartIsGrowth` | lib/calculations.ts:32-36 | every chart point's value × initial price = invested sum × that day's price |
| `Calculations.Stat.Label` | lib/calculations.ts:48-79 | the label is "Could buy" exactly for the coffee and iPhone entries; the other two are "Daily Return" and "Annualized Return" (stated by `DailyReturnFirst` and `AnnualizedEntry`) |
| `Calculations.Stat.Noun` | lib/calculations.ts:61-68 | no contract of its own: "coffees" for a coffee count, "iPhone" plus "s" when the iPhone count exceeds one; `CoffeeEntry` and `IPhoneEntry` state it |
| `Calculations.DaysDiff` | lib/calculations.ts:43-45 | no contract of its own: the end day number minus the start day number; `DaysDiffIsFlooredMillis` ties it to the source's formula |
| `Calculations.DaysDiffIsFlooredMillis` | lib/calculations.ts:43-45 | for dates at UTC midnight, flooring the millisecond difference divided by 1000 × 60 × 60 × 24 gives exactly `DaysDiff` |
| `Calculations.DailyReturnOf` | lib/calculations.ts:46 | missing exactly when start and end are the same day; `DailyReturnFirst` states that otherwise it is the profit per day |
| `Calculations.CountOf` | lib/calculations.ts:55-56 | the count is profit / price rounded down: n ≤ profit / price < n + 1 |
| `Calculations.CountOfBounds` | lib/calculations.ts:55-56 | the coffee and iPhone counts are the largest whole numbers of items the profit pays for: n × price ≤ profit < (n + 1) × price |
| `Calculations.PurchaseStats` | lib/calculations.ts:54-71 | at most two entries, all labelled "Could buy", and none without a profit |
| `Calculations.AnnualizedStats` | lib/calculations.ts:74-81 | at most one entry, present exactly when the end day is after the start day |
| `Calculations.FunStats` | lib/calculations.ts:39-84 | one to four entries, the first a Daily Return; the lemmas below state the rest |
| `Calculations.GetFunStats` | lib/calculations.ts:39-84 | appending entry by entry yields exactly `FunStats(result)`: Daily Return, then the purchase entries, then Annualized Return |
| `Calculations.DailyReturnFirst` | lib/calculations.ts:43-51 | the first entry is always "Daily Return"; it is missing exactly when start and end are the same day, and otherwise it is the profit per elapsed day |
| `Calculations.CoffeeEntry` | lib/calculations.ts:54-63 | a coffee entry exists iff the profit is at least 5; it is then second, labelled "Could buy", with the noun "coffees" and count floor(profit / 5) |
| `Calculations.IPhoneEntry` | lib/calculations.ts:54-71 | an iPhone entry exists iff the profit is at least 999; it is then third, labelled "Could buy", with count floor(profit / 999); the noun is plural exactly when the count exceeds one, i.e. when the profit is at least 1998 |
| `Calculations.NoPurchaseWithoutProfit` | lib/calculations.ts:53-71 | with no profit, no "Could buy" entry is emitted |
| `Calculations.AnnualizedEntry` | lib/calculations.ts:73-81 | "Annualized Return" is the last entry iff a positive number of whole days elapsed, and appears nowhere else; its value × days = profit percentage × 365 |
| `Calculations.FunStatsOrder` | lib/calculations.ts:39-84 | between one and four entries, in strictly increasing order Daily Return, coffees, iPhones, Annualized Return; an iPhone entry implies a coffee entry |
| `Page.Calculate` | app/page.tsx:40-60 | an empty series fails with "No historical data available for the selected period", and nothing else fails; otherwise the outcome uses the amount, the first observation's price and date, and the last observation's price and date; the chart covers the whole series and runs from the invested sum to the current value; the stats are those of the outcome |
| `Page.ChartOfSeriesFits` | app/page.tsx:44-57 | the chart of the whole series fits an outcome whose prices are the series' first and last prices |
| `Page.ChartEnds` | app/page.tsx:44-57 | that chart's first point is the invested sum and its last point is the current value |
| `Page.GainOverLeapYear` | app/page.tsx:44-60 | 1000 at 100, sold at 150 366 days later: 10 shares, value 1500, profit 500 (50 %), chart [1000, 1500], stats [500/366 a day, 100 coffees, 50 × 365/366 % a year] |
| `Page.LossOverLeapYear` | app/page.tsx:44-60 | 500 at 50, sold at 40 366 days later: 10 shares, value 400, profit −100 (−20 %), no purchase entries |
| `Page.SingleObservation` | lib/calculations.ts:43-81 | a one-point series: profit 0, the chart is the invested sum alone, and the stats are a Daily Return with no value and nothing else |
| `Page.NoData` | app/page.tsx:40-42 | an empty series is the No-Data error |

## Left out

- Fetching the series is not modelled: lib/stock-api.ts, the two API routes
  and the Yahoo Finance response shape are network I/O. The model assumes the
  series reaching the pipeline has no missing prices, which is what the null
  filter at lib/stock-api.ts:56-59 provides.
- The debounced symbol search in components/asset-picker.tsx is not
  modelled: it is timer and concurrency behaviour in a React effect.
- The date checks in components/investment-inputs.tsx are not modelled: they
  depend on the wall clock and on locale formatting.
- Formatting is presentation and is not modelled: `toFixed(2)`,
  `toLocaleString` and the `$` and `%` signs. The model keeps the exact
  numbers.
- Rendering is not modelled: components/investment-chart.tsx and
  components/results-display.tsx.
- The page's React state and error handling are not modelled: the
  `useState` setters, the async `try`/`catch`, and the rule that old results
  stay shown after a failure. `Calculate` returns the values the page would
  store.
- IEEE floating point is not modelled: rounding, `Infinity` and `NaN`.
  Division by a zero day count is `None` instead. Division by a zero first
  price or amount is excluded by a precondition.
- Parsing of JavaScript `Date` values is not modelled. Dates are day numbers.
- Idempotence (the same inputs give the same outcome) holds by construction:
  every Dafny function is deterministic. No member states it.
