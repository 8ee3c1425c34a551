/** The records the calculation pipeline consumes and produces.

    Dates are calendar days without a time of day. The price provider gives
    them as ISO `YYYY-MM-DD` strings; here a date is the number of the day
    (days since an arbitrary fixed origin), so that the difference of two
    dates is the number of whole days between them. */
module Types {

  /** A calendar day, as a day number. */
  type Day = int

  /** One closing-price observation of an instrument. */
  datatype HistoricalPrice = HistoricalPrice(date: Day, price: real)

  /** The outcome of investing a sum at the first price of a range and
      valuing it at the last price. */
  datatype InvestmentResult = InvestmentResult(
    initialInvestment: real,
    currentValue: real,
    profit: real,
    profitPercentage: real,
    shares: real,
    initialPrice: real,
    currentPrice: real,
    startDate: Day,
    endDate: Day)

  /** One point of the value-over-time chart: the price of the day and what
      the bought shares were worth at that price. */
  datatype ChartDataPoint = ChartDataPoint(date: Day, value: real, price: real)
}
