/** The values the sentinel's collector hands to its rules. Times are integer milliseconds and
    amounts exact reals. */
module SentinelTypes {
  import opened Prelude

  const MINUTE_MS: int := 60 * 1000
  const HOUR_MS: int := 60 * MINUTE_MS

  datatype Position = Position(
    symbol: string,
    side: string,             // LONG, SHORT or BOTH
    quantity: real,           // positive long, negative short
    markPrice: real,
    notional: real,
    liqPrice: real,
    adl: int)                 // 1-5, 0 without data

  datatype PricePoint = PricePoint(price: real, time: int)

  datatype Funding = Funding(symbol: string, interval: int, rate: real, nextTime: int)
}
