/**
 * The records of the aggregator: the columnar input row (`Data`) and the
 * 5-minute OHLC summary (`Candle`).
 *
 * Prices are float64 in the program but are only ever compared (never added
 * or scaled) by the aggregation, so they are modelled as integers under their
 * usual total order.  Non-finite prices are not modelled.
 */
module Market {

  /** Go's `int64`. */
  type Int64 = x: int | -0x8000_0000_0000_0000 <= x < 0x8000_0000_0000_0000

  /** A price; float64 in the program, compared only. */
  type Price = int

  /** One input row: `date` is nanoseconds since the Unix epoch. */
  datatype Row = Row(date: Int64, open: Price, high: Price, low: Price, close: Price, volume: Int64)

  /** The OHLC summary of one 5-minute bucket. */
  datatype Candle = Candle(open: Price, high: Price, low: Price, close: Price)

  /** `m` is the larger of `a` and `b`. */
  predicate IsMaxOf(m: int, a: int, b: int) {
    m >= a && m >= b && (m == a || m == b)
  }

  /** `m` is the smaller of `a` and `b`. */
  predicate IsMinOf(m: int, a: int, b: int) {
    m <= a && m <= b && (m == a || m == b)
  }
}
