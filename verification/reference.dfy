/**
 * A declarative description of what the row loop computes, independent of
 * how it computes it, and the theorems that the fold meets it.
 */
module Reference {
  import opened Market
  import opened RowFilter
  import opened Buckets
  import opened Aggregation

  /** The rows the filter keeps, in processing order. */
  function Accepted(rows: seq<Row>): seq<Row>
    decreases |rows|
  {
    if |rows| == 0 then []
    else
      var prev := Accepted(rows[..|rows| - 1]);
      var x := rows[|rows| - 1];
      if Accepts(x) then prev + [x] else prev
  }

  /** The accepted rows whose key is `k`, in processing order. */
  function InBucket(rows: seq<Row>, k: int): seq<Row>
    decreases |rows|
  {
    if |rows| == 0 then []
    else
      var prev := InBucket(rows[..|rows| - 1], k);
      var x := rows[|rows| - 1];
      if Accepts(x) && BucketKey(x.date) == k then prev + [x] else prev
  }

  /** `Accepted` keeps exactly the rows the filter accepts. */
  lemma {:induction false} AcceptedMembers(rows: seq<Row>)
    ensures forall x :: x in Accepted(rows) <==> x in rows && Accepts(x)
    decreases |rows|
  {
    if |rows| > 0 {
      var p := rows[..|rows| - 1];
      AcceptedMembers(p);
      assert rows == p + [rows[|rows| - 1]];
    }
  }

  /** `InBucket` keeps exactly the accepted rows whose key is `k`. */
  lemma {:induction false} InBucketMembers(rows: seq<Row>, k: int)
    ensures forall x :: x in InBucket(rows, k) <==> x in rows && Accepts(x) && BucketKey(x.date) == k
    decreases |rows|
  {
    if |rows| > 0 {
      var p := rows[..|rows| - 1];
      InBucketMembers(p, k);
      assert rows == p + [rows[|rows| - 1]];
    }
  }

  /**
   * With no accepted row the run ends in the state it started from: an empty
   * candle map and daily high, low and close all 0.
   */
  lemma {:induction false} EmptyDayState(rows: seq<Row>)
    requires |Accepted(rows)| == 0
    ensures Fold(Init, rows) == State(map[], 0, 0, 0)
  {
    AcceptedMembers(rows);
    assert forall i :: 0 <= i < |rows| ==> !Accepts(rows[i]) by {
      forall i | 0 <= i < |rows| ensures !Accepts(rows[i]) {
        assert rows[i] in rows;
      }
    }
    FoldRejected(Init, rows);
  }

  /** The greatest high among `xs`. */
  function MaxHigh(xs: seq<Row>): (m: Price)
    requires |xs| > 0
    ensures forall i :: 0 <= i < |xs| ==> xs[i].high <= m
    ensures exists i :: 0 <= i < |xs| && xs[i].high == m
    decreases |xs|
  {
    if |xs| == 1 then xs[0].high
    else
      var prev := MaxHigh(xs[..|xs| - 1]);
      var x := xs[|xs| - 1];
      if x.high > prev then x.high else prev
  }

  /** The least low among `xs`. */
  function MinLow(xs: seq<Row>): (m: Price)
    requires |xs| > 0
    ensures forall i :: 0 <= i < |xs| ==> m <= xs[i].low
    ensures exists i :: 0 <= i < |xs| && xs[i].low == m
    decreases |xs|
  {
    if |xs| == 1 then xs[0].low
    else
      var prev := MinLow(xs[..|xs| - 1]);
      var x := xs[|xs| - 1];
      if x.low < prev then x.low else prev
  }

  /**
   * The candle a bucket should hold: the open of its first-processed row,
   * the extreme high and low over all its rows, and the close of its
   * last-processed row.
   */
  function BucketCandle(xs: seq<Row>): Candle
    requires |xs| > 0
  {
    Candle(xs[0].open, MaxHigh(xs), MinLow(xs), xs[|xs| - 1].close)
  }

  /** Appending a row to a non-empty sequence: the max high and min low take the new row into account. */
  lemma ExtremesSnoc(xs: seq<Row>, x: Row)
    requires |xs| > 0
    ensures MaxHigh(xs + [x]) == (if x.high > MaxHigh(xs) then x.high else MaxHigh(xs))
    ensures MinLow(xs + [x]) == (if x.low < MinLow(xs) then x.low else MinLow(xs))
  {
    assert (xs + [x])[..|xs + [x]| - 1] == xs;
  }

  /**
   * After folding `rows` from the empty state, the map has a candle exactly
   * for the buckets that received an accepted row, and each candle is the
   * bucket's reference candle.
   */
  lemma {:induction false} FoldCandles(rows: seq<Row>)
    ensures forall k :: k in Fold(Init, rows).candles <==> |InBucket(rows, k)| > 0
    ensures forall k :: k in Fold(Init, rows).candles ==>
      Fold(Init, rows).candles[k] == BucketCandle(InBucket(rows, k))
    decreases |rows|
  {
    if |rows| > 0 {
      var p := rows[..|rows| - 1];
      var x := rows[|rows| - 1];
      FoldCandles(p);
      var before := Fold(Init, p).candles;
      var after := Fold(Init, rows).candles;
      forall k
        ensures k in after <==> |InBucket(rows, k)| > 0
        ensures k in after ==> after[k] == BucketCandle(InBucket(rows, k))
      {
        if Accepts(x) && BucketKey(x.date) == k {
          var xs := InBucket(p, k);
          assert InBucket(rows, k) == xs + [x];
          if |xs| > 0 {
            ExtremesSnoc(xs, x);
          }
        }
      }
    }
  }

  /** The map's keys are exactly the buckets of the accepted rows. */
  lemma {:induction false} FoldKeys(rows: seq<Row>)
    ensures Fold(Init, rows).candles.Keys == set x | x in rows && Accepts(x) :: BucketKey(x.date)
  {
    FoldCandles(rows);
    var keys := set x | x in rows && Accepts(x) :: BucketKey(x.date);
    forall k | k in Fold(Init, rows).candles
      ensures k in keys
    {
      var xs := InBucket(rows, k);
      InBucketMembers(rows, k);
      assert xs[0] in xs;
    }
    forall k | k in keys
      ensures k in Fold(Init, rows).candles
    {
      var x :| x in rows && Accepts(x) && BucketKey(x.date) == k;
      InBucketMembers(rows, k);
      assert x in InBucket(rows, k);
    }
  }

  /** Two sequences with the same elements have the same max high and min low. */
  lemma SameMembersSameExtremes(xs: seq<Row>, ys: seq<Row>)
    requires |xs| > 0 && |ys| > 0
    requires forall x :: x in xs <==> x in ys
    ensures MaxHigh(xs) == MaxHigh(ys)
    ensures MinLow(xs) == MinLow(ys)
  {
    var i :| 0 <= i < |xs| && xs[i].high == MaxHigh(xs);
    var j :| 0 <= j < |ys| && ys[j].high == MaxHigh(ys);
    assert xs[i] in ys;
    assert ys[j] in xs;
    var i' :| 0 <= i' < |xs| && xs[i'].low == MinLow(xs);
    var j' :| 0 <= j' < |ys| && ys[j'].low == MinLow(ys);
    assert xs[i'] in ys;
    assert ys[j'] in xs;
  }

  /**
   * Reordering the input (any permutation of the rows) changes neither which
   * buckets exist nor any candle's high and low.
   */
  lemma CandleExtremesOrderFree(a: seq<Row>, b: seq<Row>)
    requires multiset(a) == multiset(b)
    ensures Fold(Init, a).candles.Keys == Fold(Init, b).candles.Keys
    ensures forall k :: k in Fold(Init, a).candles ==>
      && Fold(Init, a).candles[k].high == Fold(Init, b).candles[k].high
      && Fold(Init, a).candles[k].low == Fold(Init, b).candles[k].low
  {
    FoldCandles(a);
    FoldCandles(b);
    forall x ensures x in a <==> x in b {
      assert x in a <==> x in multiset(a);
      assert x in b <==> x in multiset(b);
    }
    forall k
      ensures k in Fold(Init, a).candles <==> k in Fold(Init, b).candles
      ensures k in Fold(Init, a).candles ==>
        && Fold(Init, a).candles[k].high == Fold(Init, b).candles[k].high
        && Fold(Init, a).candles[k].low == Fold(Init, b).candles[k].low
    {
      var xs := InBucket(a, k);
      var ys := InBucket(b, k);
      InBucketMembers(a, k);
      InBucketMembers(b, k);
      if |xs| > 0 {
        assert xs[0] in ys;
        SameMembersSameExtremes(xs, ys);
      }
    }
  }

  /** The daily high is the greatest accepted high, or 0 if that is larger or nothing was accepted. */
  lemma {:induction false} DailyHigh(rows: seq<Row>)
    ensures |Accepted(rows)| == 0 ==> Fold(Init, rows).high == 0
    ensures |Accepted(rows)| > 0 ==> IsMaxOf(Fold(Init, rows).high, 0, MaxHigh(Accepted(rows)))
    decreases |rows|
  {
    if |rows| > 0 {
      var p := rows[..|rows| - 1];
      var x := rows[|rows| - 1];
      DailyHigh(p);
      if Accepts(x) && |Accepted(p)| > 0 {
        ExtremesSnoc(Accepted(p), x);
      }
    }
  }

  /** The daily close is the close of the last accepted row processed, or 0 if there was none. */
  lemma {:induction false} DailyClose(rows: seq<Row>)
    ensures |Accepted(rows)| == 0 ==> Fold(Init, rows).close == 0
    ensures |Accepted(rows)| > 0 ==> Fold(Init, rows).close == Accepted(rows)[|Accepted(rows)| - 1].close
    decreases |rows|
  {
    if |rows| > 0 {
      DailyClose(rows[..|rows| - 1]);
    }
  }

  /**
   * The daily low under the zero-as-unset rule: 0 with no accepted rows,
   * otherwise always the low of some accepted row.
   */
  lemma {:induction false} DailyLow(rows: seq<Row>)
    ensures |Accepted(rows)| == 0 ==> Fold(Init, rows).low == 0
    ensures |Accepted(rows)| > 0 ==>
      exists i :: 0 <= i < |Accepted(rows)| && Accepted(rows)[i].low == Fold(Init, rows).low
    decreases |rows|
  {
    if |rows| > 0 {
      var p := rows[..|rows| - 1];
      var x := rows[|rows| - 1];
      DailyLow(p);
      var acc := Accepted(p);
      var before := Fold(Init, p);
      var t := Fold(Init, rows);
      assert t == Step(before, x);
      if Accepts(x) {
        var now := acc + [x];
        assert Accepted(rows) == now;
        if t.low == x.low {
          assert now[|acc|] == x;
        } else {
          assert |acc| > 0 && t.low == before.low;
          var i :| 0 <= i < |acc| && acc[i].low == before.low;
          assert now[i] == acc[i];
        }
      }
    }
  }

  /** When no accepted row has a low of exactly 0, the daily low is the minimum accepted low. */
  lemma {:induction false} DailyLowWithoutZero(rows: seq<Row>)
    requires forall i :: 0 <= i < |Accepted(rows)| ==> Accepted(rows)[i].low != 0
    ensures |Accepted(rows)| > 0 ==> Fold(Init, rows).low == MinLow(Accepted(rows))
    decreases |rows|
  {
    if |rows| > 0 {
      var p := rows[..|rows| - 1];
      var x := rows[|rows| - 1];
      var acc := Accepted(p);
      var before := Fold(Init, p);
      assert Fold(Init, rows) == Step(before, x);
      if Accepts(x) {
        var now := acc + [x];
        assert Accepted(rows) == now;
        assert forall i :: 0 <= i < |acc| ==> acc[i] == now[i];
        DailyLowWithoutZero(p);
        if |acc| > 0 {
          ExtremesSnoc(acc, x);
        } else {
          DailyLow(p);
        }
      } else {
        assert Accepted(rows) == acc;
        DailyLowWithoutZero(p);
      }
    }
  }
}
