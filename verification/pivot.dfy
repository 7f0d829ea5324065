/**
 * Fibonacci pivot points from the day's high, low and close.  The program
 * computes them in float64; here they are exact reals, so rounding is not
 * modelled.
 */
module Pivot {
  import opened Market
  import opened Aggregation
  import opened Reference

  datatype PivotPoints = PivotPoints(pivot: real, r1: real, r2: real, r3: real, s1: real, s2: real, s3: real)

  /**
   * The pivot is the mean of high, low and close; resistances and supports
   * sit 0.382, 0.618 and 1 times the day's range above and below it,
   * mirror images of each other, and ordered when high is not below low.
   */
  function Calculate(high: real, low: real, close: real): (p: PivotPoints)
    ensures 3.0 * p.pivot == high + low + close
    ensures p.r1 + p.s1 == 2.0 * p.pivot && p.r2 + p.s2 == 2.0 * p.pivot && p.r3 + p.s3 == 2.0 * p.pivot
    ensures p.r3 - p.s3 == 2.0 * (high - low)
    ensures high >= low ==> p.s3 <= p.s2 <= p.s1 <= p.pivot <= p.r1 <= p.r2 <= p.r3
  {
    var pivot := (high + low + close) / 3.0;
    PivotPoints(
      pivot,
      pivot + 0.382 * (high - low),
      pivot + 0.618 * (high - low),
      pivot + (high - low),
      pivot - 0.382 * (high - low),
      pivot - 0.618 * (high - low),
      pivot - (high - low))
  }

  /** The pivot points of a finished run, from its daily high, low and close. */
  function FromState(t: State): (p: PivotPoints)
    ensures 3.0 * p.pivot == (t.high + t.low + t.close) as real
    ensures p.r3 - p.s3 == 2.0 * (t.high - t.low) as real
    ensures t.high >= t.low ==> p.s3 <= p.pivot <= p.r3
  {
    Calculate(t.high as real, t.low as real, t.close as real)
  }

  /** The worked example: high 110, low 90, close 100. */
  lemma Example()
    ensures Calculate(110.0, 90.0, 100.0) == PivotPoints(100.0, 107.64, 112.36, 120.0, 92.36, 87.64, 80.0)
  {
  }

  /** A day with no accepted rows still yields defined (all-zero) pivot points. */
  lemma {:induction false} EmptyDay(rows: seq<Row>)
    requires |Accepted(rows)| == 0
    ensures FromState(Fold(Init, rows)) == PivotPoints(0.0, 0.0, 0.0, 0.0, 0.0, 0.0, 0.0)
  {
    DailyHigh(rows);
    DailyLow(rows);
    DailyClose(rows);
  }
}
