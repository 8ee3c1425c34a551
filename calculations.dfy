/** The investment-calculation pipeline: the outcome of an investment, the
    value-over-time chart, and the derived "fun" statistics. */
module Calculations {
  import opened Wrappers
  import opened Types

  // ---------------------------------------------------------------------
  // Investment outcome
  // ---------------------------------------------------------------------

  /** The invariants every investment outcome satisfies: the shares are what
      the invested sum buys at the initial price, and value, profit and
      percentage follow from them. */
  ghost predicate IsOutcome(r: InvestmentResult)
  {
    && r.initialInvestment > 0.0
    && r.initialPrice > 0.0
    && r.shares * r.initialPrice == r.initialInvestment
    && r.currentValue == r.shares * r.currentPrice
    && r.profit == r.currentValue - r.initialInvestment
    && r.profitPercentage * r.initialInvestment == 100.0 * r.profit
  }

  /** Invests `initialInvestment` at `initialPrice` and values the shares at
      `currentPrice`; the inputs are carried over unchanged. */
  function CalculateInvestment(initialInvestment: real, initialPrice: real, currentPrice: real,
                               startDate: Day, endDate: Day): (r: InvestmentResult)
    requires initialInvestment > 0.0 && initialPrice > 0.0
    ensures IsOutcome(r)
    ensures r.initialInvestment == initialInvestment && r.initialPrice == initialPrice
    ensures r.currentPrice == currentPrice
    ensures r.startDate == startDate && r.endDate == endDate
    ensures r.currentValue * initialPrice == initialInvestment * currentPrice
    ensures r.profit * initialPrice == initialInvestment * (currentPrice - initialPrice)
    ensures r.profitPercentage * initialPrice == 100.0 * (currentPrice - initialPrice)
    ensures r.profit > 0.0 <==> currentPrice > initialPrice
    ensures r.profit == 0.0 <==> currentPrice == initialPrice
    ensures r.profit < 0.0 <==> currentPrice < initialPrice
  {
    var shares := initialInvestment / initialPrice;
    var currentValue := shares * currentPrice;
    var profit := currentValue - initialInvestment;
    var profitPercentage := (profit / initialInvestment) * 100.0;
    ProfitScales(initialInvestment, initialPrice, currentPrice, shares, profit);
    InvestmentResult(initialInvestment, currentValue, profit, profitPercentage, shares,
                     initialPrice, currentPrice, startDate, endDate)
  }

  /** The profit is the invested sum scaled by the relative price change. */
  lemma ProfitScales(amount: real, initialPrice: real, currentPrice: real, shares: real, profit: real)
    requires amount > 0.0 && initialPrice > 0.0
    requires shares == amount / initialPrice
    requires profit == shares * currentPrice - amount
    ensures profit * initialPrice == amount * (currentPrice - initialPrice)
    ensures profit > 0.0 <==> currentPrice > initialPrice
    ensures profit < 0.0 <==> currentPrice < initialPrice
  {
    assert shares * initialPrice == amount;
    calc {
      profit * initialPrice;
      shares * currentPrice * initialPrice - amount * initialPrice;
      (shares * initialPrice) * currentPrice - amount * initialPrice;
      amount * (currentPrice - initialPrice);
    }
    SignOfProduct(amount, currentPrice - initialPrice, profit * initialPrice);
    SignOfProduct(profit, initialPrice, profit * initialPrice);
  }

  /** With a positive second factor, a product has the sign of the first. */
  lemma SignOfProduct(x: real, y: real, p: real)
    requires y > 0.0 || x > 0.0
    requires p == x * y
    ensures y > 0.0 ==> (p > 0.0 <==> x > 0.0) && (p < 0.0 <==> x < 0.0)
    ensures x > 0.0 ==> (p > 0.0 <==> y > 0.0) && (p < 0.0 <==> y < 0.0)
  {
  }

  /** The invariants determine the outcome: any record that satisfies them is
      the one `CalculateInvestment` builds from its five inputs. */
  lemma OutcomeDeterminedByInputs(r: InvestmentResult)
    requires IsOutcome(r)
    ensures r == CalculateInvestment(r.initialInvestment, r.initialPrice, r.currentPrice,
                                     r.startDate, r.endDate)
  {
    var c := CalculateInvestment(r.initialInvestment, r.initialPrice, r.currentPrice,
                                 r.startDate, r.endDate);
    assert r.shares == c.shares by {
      assert (r.shares - c.shares) * r.initialPrice == 0.0;
    }
    assert r.profitPercentage == c.profitPercentage by {
      assert (r.profitPercentage - c.profitPercentage) * r.initialInvestment == 0.0;
    }
  }

  // ---------------------------------------------------------------------
  // Chart data
  // ---------------------------------------------------------------------

  /** The chart point of one observation for a holding of `shares`. */
  function ChartPoint(p: HistoricalPrice, shares: real): ChartDataPoint
  {
    ChartDataPoint(p.date, p.price * shares, p.price)
  }

  /** Maps the price series, in order, to the value of the holding on each day. */
  function GenerateChartData(prices: seq<HistoricalPrice>, shares: real): (out: seq<ChartDataPoint>)
    ensures |out| == |prices|
    ensures forall i :: 0 <= i < |prices| ==>
      out[i].date == prices[i].date && out[i].price == prices[i].price &&
      out[i].value == prices[i].price * shares
  {
    if prices == [] then [] else [ChartPoint(prices[0], shares)] + GenerateChartData(prices[1..], shares)
  }

  /** Charting a concatenation charts each part: the map keeps the order of
      the series and neither drops nor adds points. */
  lemma {:induction false} ChartDataAppend(a: seq<HistoricalPrice>, b: seq<HistoricalPrice>, shares: real)
    ensures GenerateChartData(a + b, shares) == GenerateChartData(a, shares) + GenerateChartData(b, shares)
  {
    if a != [] {
      assert (a + b)[0] == a[0] && (a + b)[1..] == a[1..] + b;
      ChartDataAppend(a[1..], b, shares);
      calc {
        GenerateChartData(a + b, shares);
        [ChartPoint(a[0], shares)] + GenerateChartData(a[1..] + b, shares);
        [ChartPoint(a[0], shares)] + (GenerateChartData(a[1..], shares) + GenerateChartData(b, shares));
        ([ChartPoint(a[0], shares)] + GenerateChartData(a[1..], shares)) + GenerateChartData(b, shares);
        GenerateChartData(a, shares) + GenerateChartData(b, shares);
      }
    } else {
      assert a + b == b;
    }
  }

  /** At any price the chart shows the invested sum grown in the ratio of
      that price to the initial price: at the initial price it shows the
      invested sum. */
  lemma ChartValueIsGrowth(r: InvestmentResult, price: real)
    requires IsOutcome(r)
    ensures price * r.shares * r.initialPrice == r.initialInvestment * price
    ensures price == r.initialPrice ==> price * r.shares == r.initialInvestment
  {
    assert price * r.shares * r.initialPrice == price * (r.shares * r.initialPrice);
  }

  /** Charting a series for an outcome shows, at each point, the invested sum
      grown in the ratio of that day's price to the initial price. */
  lemma ChartIsGrowth(prices: seq<HistoricalPrice>, amount: real, initialPrice: real, shares: real)
    requires shares * initialPrice == amount
    ensures forall i :: 0 <= i < |prices| ==>
      GenerateChartData(prices, shares)[i].value * initialPrice == amount * prices[i].price
  {
    var out := GenerateChartData(prices, shares);
    forall i | 0 <= i < |prices|
      ensures out[i].value * initialPrice == amount * prices[i].price
    {
      ScaledPrice(prices[i].price, shares, initialPrice, amount, out[i].value);
    }
  }

  lemma ScaledPrice(price: real, shares: real, initialPrice: real, amount: real, value: real)
    requires shares * initialPrice == amount && value == price * shares
    ensures value * initialPrice == amount * price
  {
    assert value * initialPrice == price * (shares * initialPrice);
  }

  // ---------------------------------------------------------------------
  // Fun stats
  // ---------------------------------------------------------------------

  /** A reference price of a coffee and of an iPhone, in dollars. */
  const CoffeePrice: real := 5.0
  const IPhonePrice: real := 999.0
  const DaysPerYear: real := 365.0

  /** One derived statistic: its kind and its computed number. The text the
      page shows (`label`, and `value` formatted to two decimals or with a
      thousands separator) is derived from these by `Label` and `Noun`. */
  datatype Stat =
    | DailyReturn(dollars: Option<real>)
    | Coffees(coffees: nat)
    | IPhones(iphones: nat)
    | AnnualizedReturn(percent: real)
  {
    function Label(): (l: string)
      ensures l == "Could buy" <==> Coffees? || IPhones?
    {
      match this
      case DailyReturn(_) => "Daily Return"
      case Coffees(_) => "Could buy"
      case IPhones(_) => "Could buy"
      case AnnualizedReturn(_) => "Annualized Return"
    }

    /** The word written after a count. */
    function Noun(): string
      requires Coffees? || IPhones?
    {
      if Coffees? then "coffees" else if iphones > 1 then "iPhones" else "iPhone"
    }

    /** The position of a kind of statistic in the list. */
    function Rank(): nat
    {
      match this
      case DailyReturn(_) => 0
      case Coffees(_) => 1
      case IPhones(_) => 2
      case AnnualizedReturn(_) => 3
    }
  }

  /** Whole days between the start and the end date. The JavaScript version
      floors a millisecond difference of two UTC midnights, which is exact. */
  function DaysDiff(r: InvestmentResult): int
  {
    r.endDate - r.startDate
  }

  const MsPerDay: int := 1000 * 60 * 60 * 24

  /** The source's day count, the floored quotient of the millisecond
      difference of two UTC midnights by the length of a day, is exactly the
      difference of the day numbers. */
  lemma DaysDiffIsFlooredMillis(r: InvestmentResult)
    ensures (((r.endDate * MsPerDay - r.startDate * MsPerDay) as real) / (MsPerDay as real)).Floor == DaysDiff(r)
  {
    var k := r.endDate - r.startDate;
    assert r.endDate * MsPerDay - r.startDate * MsPerDay == k * MsPerDay;
    assert (k * MsPerDay) as real == k as real * MsPerDay as real;
    assert (k as real * MsPerDay as real) / (MsPerDay as real) == k as real;
  }

  /** Profit per elapsed day; none when no day elapsed (JavaScript would give
      an infinite or NaN value). */
  function DailyReturnOf(r: InvestmentResult): (d: Option<real>)
    ensures d.None? <==> r.endDate == r.startDate
  {
    if DaysDiff(r) == 0 then None else Some(r.profit / DaysDiff(r) as real)
  }

  /** How many whole items of the given price the profit buys (rounded down). */
  function CountOf(profit: real, price: real): (n: int)
    requires price > 0.0
    ensures n as real <= profit / price < n as real + 1.0
  {
    (profit / price).Floor
  }

  /** The count is the largest whole number of items the profit pays for. */
  lemma CountOfBounds(profit: real, price: real)
    requires price > 0.0
    ensures (CountOf(profit, price) as real) * price <= profit < ((CountOf(profit, price) + 1) as real) * price
  {
    var n := CountOf(profit, price);
    assert n as real <= profit / price < (n + 1) as real;
    assert (profit / price) * price == profit;
    MultiplyBounds(n as real, profit / price, (n + 1) as real, price);
    assert profit < ((n + 1) as real) * price;
  }

  lemma MultiplyBounds(lo: real, q: real, hi: real, price: real)
    requires price > 0.0 && lo <= q < hi
    ensures lo * price <= q * price < hi * price
  {
  }

  /** The purchasing-power statistics: only when there is a profit, a coffee
      count if it is at least one, then an iPhone count if it is at least one. */
  function PurchaseStats(profit: real): (s: seq<Stat>)
    ensures |s| <= 2
    ensures profit <= 0.0 ==> s == []
    ensures forall i :: 0 <= i < |s| ==> s[i].Label() == "Could buy"
  {
    if profit > 0.0 then
      var coffees := CountOf(profit, CoffeePrice);
      var iphones := CountOf(profit, IPhonePrice);
      (if coffees > 0 then [Coffees(coffees)] else []) +
      (if iphones > 0 then [IPhones(iphones)] else [])
    else []
  }

  /** The annualized return, present only when a positive number of whole
      days elapsed. */
  function AnnualizedStats(r: InvestmentResult): (s: seq<Stat>)
    ensures |s| <= 1
    ensures |s| == 1 <==> r.endDate > r.startDate
  {
    var years := DaysDiff(r) as real / DaysPerYear;
    if years > 0.0 then [AnnualizedReturn(r.profitPercentage / years)] else []
  }

  /** The statistics, in display order. */
  function FunStats(r: InvestmentResult): (s: seq<Stat>)
    ensures 1 <= |s| <= 4 && s[0].DailyReturn?
  {
    [DailyReturn(DailyReturnOf(r))] + PurchaseStats(r.profit) + AnnualizedStats(r)
  }

  /** Builds the statistics list by appending entry by entry. */
  method GetFunStats(result: InvestmentResult) returns (stats: seq<Stat>)
    ensures stats == FunStats(result)
  {
    stats := [];

    var daysDiff := result.endDate - result.startDate;
    var dailyReturn := if daysDiff == 0 then None else Some(result.profit / daysDiff as real);
    stats := stats + [DailyReturn(dailyReturn)];

    if result.profit > 0.0 {
      var coffees := (result.profit / CoffeePrice).Floor;
      var iphones := (result.profit / IPhonePrice).Floor;
      if coffees > 0 {
        stats := stats + [Coffees(coffees)];
      }
      if iphones > 0 {
        stats := stats + [IPhones(iphones)];
      }
    }

    var years := daysDiff as real / DaysPerYear;
    if years > 0.0 {
      var annualizedReturn := result.profitPercentage / years;
      stats := stats + [AnnualizedReturn(annualizedReturn)];
    }
  }

  // ---------------------------------------------------------------------
  // Properties of the statistics
  // ---------------------------------------------------------------------

  /** Daily Return always comes first; it is the profit per elapsed day, and
      is missing exactly when start and end are the same day. */
  lemma DailyReturnFirst(r: InvestmentResult)
    ensures |FunStats(r)| >= 1 && FunStats(r)[0].DailyReturn?
    ensures FunStats(r)[0].Label() == "Daily Return"
    ensures FunStats(r)[0].dollars.None? <==> r.endDate == r.startDate
    ensures FunStats(r)[0].dollars.Some? ==>
      FunStats(r)[0].dollars.value * (r.endDate - r.startDate) as real == r.profit
  {
    if DaysDiff(r) != 0 {
      var d := DaysDiff(r) as real;
      assert (r.profit / d) * d == r.profit;
    }
  }

  /** A coffee entry appears exactly when the profit reaches the price of a
      coffee, and then it counts the whole coffees the profit buys. */
  lemma CoffeeEntry(r: InvestmentResult)
    ensures (exists i :: 0 <= i < |FunStats(r)| && FunStats(r)[i].Coffees?) <==> r.profit >= CoffeePrice
    ensures r.profit >= CoffeePrice ==>
      FunStats(r)[1].Coffees? && FunStats(r)[1].Label() == "Could buy" &&
      FunStats(r)[1].Noun() == "coffees" &&
      FunStats(r)[1].coffees as real * CoffeePrice <= r.profit < (FunStats(r)[1].coffees + 1) as real * CoffeePrice
  {
    var s := FunStats(r);
    var n := CountOf(r.profit, CoffeePrice);
    CountOfBounds(r.profit, CoffeePrice);
    if r.profit >= CoffeePrice {
      assert n >= 1 by { assert r.profit < (n + 1) as real * CoffeePrice; }
      assert s[1] == Coffees(n);
    } else {
      assert n <= 0 by { assert n as real * CoffeePrice <= r.profit; }
      forall i | 0 <= i < |s| ensures !s[i].Coffees? {
      }
    }
  }

  /** An iPhone entry appears exactly when the profit reaches the price of an
      iPhone; its noun is plural exactly when it counts more than one. */
  lemma IPhoneEntry(r: InvestmentResult)
    ensures (exists i :: 0 <= i < |FunStats(r)| && FunStats(r)[i].IPhones?) <==> r.profit >= IPhonePrice
    ensures r.profit >= IPhonePrice ==>
      FunStats(r)[2].IPhones? && FunStats(r)[2].Label() == "Could buy" &&
      FunStats(r)[2].iphones as real * IPhonePrice <= r.profit < (FunStats(r)[2].iphones + 1) as real * IPhonePrice &&
      (FunStats(r)[2].Noun() == "iPhones" <==> FunStats(r)[2].iphones > 1) &&
      (FunStats(r)[2].Noun() == "iPhones" <==> r.profit >= 2.0 * IPhonePrice)
  {
    var s := FunStats(r);
    var n := CountOf(r.profit, IPhonePrice);
    CountOfBounds(r.profit, IPhonePrice);
    if r.profit >= IPhonePrice {
      var c := CountOf(r.profit, CoffeePrice);
      CountOfBounds(r.profit, CoffeePrice);
      assert n >= 1 by { assert r.profit < (n + 1) as real * IPhonePrice; }
      assert c >= 1 by { assert r.profit < (c + 1) as real * CoffeePrice; }
      assert s[2] == IPhones(n);
      assert n > 1 <==> r.profit >= 2.0 * IPhonePrice by {
        if n > 1 {
          assert n as real * IPhonePrice >= 2.0 * IPhonePrice;
        }
        if r.profit >= 2.0 * IPhonePrice {
          assert (n + 1) as real * IPhonePrice > 2.0 * IPhonePrice;
        }
      }
      assert "iPhone" != "iPhones";
    } else {
      assert n <= 0 by { assert n as real * IPhonePrice <= r.profit; }
      forall i | 0 <= i < |s| ensures !s[i].IPhones? {
      }
    }
  }

  /** Without a profit there is no purchasing-power entry. */
  lemma NoPurchaseWithoutProfit(r: InvestmentResult)
    requires r.profit <= 0.0
    ensures forall i :: 0 <= i < |FunStats(r)| ==> FunStats(r)[i].Label() != "Could buy"
  {
    assert FunStats(r) == [DailyReturn(DailyReturnOf(r))] + AnnualizedStats(r);
  }

  /** Annualized Return appears exactly when a positive number of whole days
      elapsed; it is then the last entry, and it is the profit percentage
      divided by the elapsed years. */
  lemma AnnualizedEntry(r: InvestmentResult)
    ensures FunStats(r)[|FunStats(r)| - 1].AnnualizedReturn? <==> DaysDiff(r) > 0
    ensures forall i :: 0 <= i < |FunStats(r)| - 1 ==> !FunStats(r)[i].AnnualizedReturn?
    ensures DaysDiff(r) > 0 ==>
      FunStats(r)[|FunStats(r)| - 1].Label() == "Annualized Return" &&
      FunStats(r)[|FunStats(r)| - 1].percent * DaysDiff(r) as real == r.profitPercentage * DaysPerYear
  {
    var d := DaysDiff(r) as real;
    if d > 0.0 {
      var years := d / DaysPerYear;
      var a := r.profitPercentage / years;
      assert a * years == r.profitPercentage;
      assert a * d == a * years * DaysPerYear;
    }
  }

  /** The entries come in the order Daily Return, coffees, iPhones, Annualized
      Return, each at most once; an iPhone entry implies a coffee entry. */
  lemma FunStatsOrder(r: InvestmentResult)
    ensures 1 <= |FunStats(r)| <= 4
    ensures forall i, j :: 0 <= i < j < |FunStats(r)| ==> FunStats(r)[i].Rank() < FunStats(r)[j].Rank()
    ensures (exists i :: 0 <= i < |FunStats(r)| && FunStats(r)[i].IPhones?) ==>
            (exists i :: 0 <= i < |FunStats(r)| && FunStats(r)[i].Coffees?)
  {
    CoffeeEntry(r);
    IPhoneEntry(r);
    var s := FunStats(r);
    var p := PurchaseStats(r.profit);
    assert p == [] || p == [s[1]] || p == [s[1], s[2]];
  }
}
