/** How the page runs the pipeline once the price history of the chosen
    asset has been fetched: the first observation gives the initial price and
    the start date, the last one the current price and the end date. */
module Page {
  import opened Wrappers
  import opened Types
  import opened Calculations

  const NoDataMessage: string := "No historical data available for the selected period"

  /** Everything one calculation shows: the outcome, the chart and the stats. */
  datatype Calculation = Calculation(result: InvestmentResult, chart: seq<ChartDataPoint>, stats: seq<Stat>)

  /** The chart of a non-empty series for an outcome: one point per
      observation, in order, each the invested sum grown in the ratio of that
      day's price to the initial price; it starts at the invested sum and ends
      at the current value. */
  ghost predicate ChartFits(r: InvestmentResult, historicalData: seq<HistoricalPrice>, chart: seq<ChartDataPoint>)
    requires |historicalData| > 0
  {
    && |chart| == |historicalData|
    && (forall i :: 0 <= i < |historicalData| ==>
          chart[i].date == historicalData[i].date &&
          chart[i].price == historicalData[i].price &&
          chart[i].value * r.initialPrice == r.initialInvestment * historicalData[i].price)
    && chart[0].value == r.initialInvestment
    && chart[|historicalData| - 1].value == r.currentValue
  }

  /** What a calculation shows for a non-empty series: the outcome of
      investing `amount` at the first observation and valuing it at the last,
      the chart of the whole series, and the statistics of the outcome. */
  ghost predicate Shows(amount: real, historicalData: seq<HistoricalPrice>, c: Calculation)
    requires |historicalData| > 0
  {
    var first := historicalData[0];
    var last := historicalData[|historicalData| - 1];
    && IsOutcome(c.result)
    && c.result.initialInvestment == amount
    && c.result.initialPrice == first.price && c.result.startDate == first.date
    && c.result.currentPrice == last.price && c.result.endDate == last.date
    && ChartFits(c.result, historicalData, c.chart)
    && c.stats == FunStats(c.result)
  }

  /** Runs the pipeline on an already fetched price series; an empty series
      is an error and nothing is computed. */
  function Calculate(amount: real, historicalData: seq<HistoricalPrice>): (c: Result<Calculation, string>)
    requires amount > 0.0
    requires |historicalData| > 0 ==> historicalData[0].price > 0.0
    ensures c.Failure? <==> historicalData == []
    ensures c.Failure? ==> c.error == NoDataMessage
    ensures c.Success? ==> Shows(amount, historicalData, c.value)
  {
    if |historicalData| == 0 then
      Failure(NoDataMessage)
    else
      var initialPrice := historicalData[0].price;
      var currentPrice := historicalData[|historicalData| - 1].price;
      var investmentResult := CalculateInvestment(amount, initialPrice, currentPrice,
                                                  historicalData[0].date,
                                                  historicalData[|historicalData| - 1].date);
      var chart := GenerateChartData(historicalData, investmentResult.shares);
      ChartOfSeriesFits(investmentResult, historicalData);
      Success(Calculation(investmentResult, chart, FunStats(investmentResult)))
  }

  /** The chart of the whole series for an outcome whose prices are the
      series' first and last prices fits that outcome. The proof is direct;
      automatic induction on the series is switched off, as its hypothesis
      only muddles the verifier's check for contradictory assumptions. */
  lemma {:induction false} ChartOfSeriesFits(r: InvestmentResult, historicalData: seq<HistoricalPrice>)
    requires IsOutcome(r) && |historicalData| > 0
    requires r.initialPrice == historicalData[0].price
    requires r.currentPrice == historicalData[|historicalData| - 1].price
    ensures ChartFits(r, historicalData, GenerateChartData(historicalData, r.shares))
  {
    ChartIsGrowth(historicalData, r.initialInvestment, r.initialPrice, r.shares);
    ChartEnds(r, historicalData);
  }

  /** The chart starts at the invested sum and ends at the current value
      (a direct proof; automatic induction switched off as above). */
  lemma {:induction false} ChartEnds(r: InvestmentResult, historicalData: seq<HistoricalPrice>)
    requires IsOutcome(r) && |historicalData| > 0
    requires r.initialPrice == historicalData[0].price
    requires r.currentPrice == historicalData[|historicalData| - 1].price
    ensures GenerateChartData(historicalData, r.shares)[0].value == r.initialInvestment
    ensures GenerateChartData(historicalData, r.shares)[|historicalData| - 1].value == r.currentValue
  {
    ChartValueIsGrowth(r, historicalData[0].price);
  }

  // ---------------------------------------------------------------------
  // Worked examples
  // ---------------------------------------------------------------------

  /** 1000 dollars at 100, worth 150 a leap year (366 days) later: 10 shares,
      a profit of 500 (50 percent), 100 coffees and no iPhone. */
  lemma GainOverLeapYear(start: Day)
    ensures
      var c := Calculate(1000.0, [HistoricalPrice(start, 100.0), HistoricalPrice(start + 366, 150.0)]);
      && c.Success?
      && c.value.result.shares == 10.0
      && c.value.result.currentValue == 1500.0
      && c.value.result.profit == 500.0
      && c.value.result.profitPercentage == 50.0
      && c.value.chart == [ChartDataPoint(start, 1000.0, 100.0), ChartDataPoint(start + 366, 1500.0, 150.0)]
      && c.value.stats == [DailyReturn(Some(500.0 / 366.0)), Coffees(100), AnnualizedReturn(50.0 * 365.0 / 366.0)]
  {
    var r := CalculateInvestment(1000.0, 100.0, 150.0, start, start + 366);
    assert r.shares == 10.0 && r.profit == 500.0 && r.profitPercentage == 50.0;
    assert CountOf(500.0, CoffeePrice) == 100;
    assert CountOf(500.0, IPhonePrice) == 0;
    assert AnnualizedStats(r) == [AnnualizedReturn(50.0 * 365.0 / 366.0)];
  }

  /** 500 dollars at 50, worth 40 a leap year later: a loss of 100 (minus 20
      percent) and no purchasing-power entry. */
  lemma LossOverLeapYear(start: Day)
    ensures
      var c := Calculate(500.0, [HistoricalPrice(start, 50.0), HistoricalPrice(start + 366, 40.0)]);
      && c.Success?
      && c.value.result.shares == 10.0
      && c.value.result.currentValue == 400.0
      && c.value.result.profit == -100.0
      && c.value.result.profitPercentage == -20.0
      && c.value.stats == [DailyReturn(Some(-100.0 / 366.0)), AnnualizedReturn(-20.0 * 365.0 / 366.0)]
  {
    var r := CalculateInvestment(500.0, 50.0, 40.0, start, start + 366);
    assert r.shares == 10.0 && r.profit == -100.0 && r.profitPercentage == -20.0;
    assert AnnualizedStats(r) == [AnnualizedReturn(-20.0 * 365.0 / 366.0)];
  }

  /** A series of one observation: start and end are the same day, the
      chart is the invested sum alone, there is no daily return and no
      annualized return. */
  lemma SingleObservation(amount: real, p: HistoricalPrice)
    requires amount > 0.0 && p.price > 0.0
    ensures
      var c := Calculate(amount, [p]);
      && c.Success?
      && c.value.result.profit == 0.0
      && c.value.chart == [ChartDataPoint(p.date, amount, p.price)]
      && c.value.stats == [DailyReturn(None)]
  {
  }

  /** An empty series is the No-Data error. */
  lemma NoData(amount: real)
    requires amount > 0.0
    ensures Calculate(amount, []) == Failure(NoDataMessage)
  {
  }
}
