/**
 * The per-row state of the streaming aggregation: the candle map keyed by
 * bucket start, and the daily high, low and close used for pivot points.
 */
module Aggregation {
  import opened Market
  import opened RowFilter
  import opened Buckets

  /** Everything the row loop carries from one row to the next. */
  datatype State = State(candles: map<int, Candle>, high: Price, low: Price, close: Price)

  /** Before the first row: an empty map and Go's zero value 0 for high, low and close. */
  const Init: State := State(map[], 0, 0, 0)

  /** Every key of the candle map is a bucket start on the target day. */
  predicate KeysInDay(s: State) {
    forall k :: k in s.candles ==> Aligned(k) && DayStart <= k < DayEnd
  }

  /**
   * Fold one accepted row into the candle map: the first row of a bucket
   * creates its candle from the row's own prices; a later row raises the
   * high, lowers the low, overwrites the close and keeps the open.  No other
   * bucket changes.
   */
  function Insert(candles: map<int, Candle>, key: int, r: Row): (m: map<int, Candle>)
    ensures m.Keys == candles.Keys + {key}
    ensures key !in candles ==> m[key] == Candle(r.open, r.high, r.low, r.close)
    ensures key in candles ==>
      && m[key].open == candles[key].open
      && IsMaxOf(m[key].high, candles[key].high, r.high)
      && IsMinOf(m[key].low, candles[key].low, r.low)
      && m[key].close == r.close
    ensures forall k :: k in candles && k != key ==> m[k] == candles[k]
  {
    if key !in candles then
      candles[key := Candle(r.open, r.high, r.low, r.close)]
    else
      var c := candles[key];
      var high := if r.high > c.high then r.high else c.high;
      var low := if r.low < c.low then r.low else c.low;
      candles[key := Candle(c.open, high, low, r.close)]
  }

  /**
   * One iteration of the row loop.  A rejected row changes nothing.  An
   * accepted row updates the daily extremes and its bucket's candle.  The
   * daily high only rises above its start value 0; the daily low takes the
   * row's low whenever the current low is 0 (the unset marker), and
   * otherwise keeps the minimum; the daily close is always overwritten.
   */
  function Step(s: State, r: Row): (t: State)
    ensures !Accepts(r) ==> t == s
    ensures Accepts(r) ==> t.candles == Insert(s.candles, BucketKey(r.date), r)
    ensures Accepts(r) ==> IsMaxOf(t.high, s.high, r.high)
    ensures Accepts(r) && s.low == 0 ==> t.low == r.low
    ensures Accepts(r) && s.low != 0 ==> IsMinOf(t.low, s.low, r.low)
    ensures Accepts(r) ==> t.close == r.close
  {
    if !Accepts(r) then s
    else
      var high := if r.high > s.high then r.high else s.high;
      var low := if r.low < s.low || s.low == 0 then r.low else s.low;
      State(Insert(s.candles, BucketKey(r.date), r), high, low, r.close)
  }

  /** The state after processing `rows` in order, starting from `s`. */
  function Fold(s: State, rows: seq<Row>): (t: State)
    ensures s.candles.Keys <= t.candles.Keys
    decreases |rows|
  {
    if |rows| == 0 then s
    else Step(Fold(s, rows[..|rows| - 1]), rows[|rows| - 1])
  }

  /** Folding keeps every key a bucket start on the target day. */
  lemma {:induction false} FoldKeysInDay(s: State, rows: seq<Row>)
    requires KeysInDay(s)
    ensures KeysInDay(Fold(s, rows))
    decreases |rows|
  {
    if |rows| > 0 {
      FoldKeysInDay(s, rows[..|rows| - 1]);
      var x := rows[|rows| - 1];
      if Accepts(x) {
        KeyInDay(x.date);
      }
    }
  }

  /** Processing `a` then `b` is processing their concatenation. */
  lemma {:induction false} FoldAppend(s: State, a: seq<Row>, b: seq<Row>)
    ensures Fold(s, a + b) == Fold(Fold(s, a), b)
    decreases |b|
  {
    if |b| == 0 {
      assert a + b == a;
    } else {
      var b' := b[..|b| - 1];
      assert (a + b)[..|a + b| - 1] == a + b';
      assert (a + b)[|a + b| - 1] == b[|b| - 1];
      FoldAppend(s, a, b');
    }
  }

  /** Rows the filter rejects leave the candle map and the daily extremes exactly as they were. */
  lemma {:induction false} FoldRejected(s: State, rows: seq<Row>)
    requires forall i :: 0 <= i < |rows| ==> !Accepts(rows[i])
    ensures Fold(s, rows) == s
    decreases |rows|
  {
    if |rows| > 0 {
      FoldRejected(s, rows[..|rows| - 1]);
    }
  }

  /** A day's worth of rows yields at most 288 candles. */
  lemma CandleCountBound(rows: seq<Row>)
    ensures |Fold(Init, rows).candles| <= BucketsPerDay
  {
    var t := Fold(Init, rows);
    FoldKeysInDay(Init, rows);
    DayKeysAtMost(t.candles.Keys);
  }
}
