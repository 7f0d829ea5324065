/**
 * The row filter: a row counts only if its timestamp is set (non-zero) and
 * its UTC calendar date is 2024-01-10.
 */
module RowFilter {
  import opened Market

  const NanosPerSecond: int := 1_000_000_000
  const SecondsPerDay: int := 86_400
  const NanosPerDay: int := SecondsPerDay * NanosPerSecond

  /** Days from 1970-01-01 to 2024-01-10, the fixed target trading day. */
  const TargetDay: int := 19_732

  /** First and one-past-last nanosecond instant of the target day (UTC). */
  const DayStart: int := TargetDay * NanosPerDay
  const DayEnd: int := DayStart + NanosPerDay

  /**
   * The number of days from 1970-01-01 to the proleptic Gregorian date
   * `y`-`m`-`d` (the well-known days-from-civil algorithm, floor division).
   */
  function DaysFromCivil(y: int, m: int, d: int): int
    requires 1 <= m <= 12 && 1 <= d <= 31
  {
    var y' := if m <= 2 then y - 1 else y;
    var era := y' / 400;
    var yoe := y' - era * 400;
    var mp := if m > 2 then m - 3 else m + 9;
    var doy := (153 * mp + 2) / 5 + d - 1;
    var doe := yoe * 365 + yoe / 4 - yoe / 100 + doy;
    era * 146097 + doe - 719468
  }

  /** The day number used by the filter is the calendar date 2024-01-10. */
  lemma TargetDayIsJanuaryTenth()
    ensures DaysFromCivil(2024, 1, 10) == TargetDay
    ensures DaysFromCivil(2024, 1, 9) == TargetDay - 1
    ensures DaysFromCivil(2024, 1, 11) == TargetDay + 1
  {
  }

  /**
   * The UTC calendar day (counted from 1970-01-01) of a nanosecond instant.
   * Go's UTC conversion floors, also for instants before the epoch, and
   * Dafny's `/` with a positive divisor is floor division.
   */
  function UtcDay(ns: int): (day: int)
    ensures day * NanosPerDay <= ns < day * NanosPerDay + NanosPerDay
  {
    ns / NanosPerDay
  }

  /**
   * Whether the row loop keeps a row: a zero timestamp is skipped first, then
   * every row whose UTC date is not the target day.  Since the date string
   * "2006-01-02" names each day uniquely, comparing it with "2024-01-10" is
   * comparing day numbers.  The accepted instants are exactly the half-open
   * nanosecond range of the target day.
   */
  function Accepts(r: Row): (ok: bool)
    ensures ok <==> DayStart <= r.date < DayEnd
  {
    DayOfIff(r.date);
    r.date != 0 && UtcDay(r.date) == TargetDay
  }

  /** An instant lies on the target day exactly when it is in [DayStart, DayEnd). */
  lemma DayOfIff(ns: int)
    ensures UtcDay(ns) == TargetDay <==> DayStart <= ns < DayEnd
  {
  }
}
