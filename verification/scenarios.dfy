/**
 * Concrete runs on the target day that pin down boundary, ordering and
 * zero-low behaviour of the row loop.
 */
module Scenarios {
  import opened Market
  import opened RowFilter
  import opened Buckets
  import opened Aggregation
  import opened Reference

  /** 2024-01-10 09:30:00 UTC in nanoseconds. */
  const NineThirty: int := DayStart + (9 * 60 + 30) * 60 * NanosPerSecond

  /** A row at `ts` on the target day with the given high, low and close. */
  function At(ts: int, high: int, low: int, close: int): (r: Row)
    requires DayStart <= ts < DayEnd
    ensures Accepts(r)
  {
    Row(ts, close, high, low, close, 0)
  }

  /** Folding three rows is three steps. */
  lemma FoldThree(s: State, a: Row, b: Row, c: Row)
    ensures Fold(s, [a, b, c]) == Step(Step(Step(s, a), b), c)
  {
    assert Fold(s, [a]) == Step(s, a) by {
      assert [a][..0] == [];
    }
    assert Fold(s, [a, b]) == Step(Step(s, a), b) by {
      assert [a, b][..1] == [a];
    }
    assert [a, b, c][..2] == [a, b];
  }

  /** 09:30:00 starts its own bucket, 09:34:59.999999999 is still in it, 09:35:00 starts the next. */
  lemma BucketBoundaries()
    ensures BucketKey(NineThirty) == NineThirty
    ensures BucketKey(NineThirty + BucketNanos - 1) == NineThirty
    ensures BucketKey(NineThirty + BucketNanos) == NineThirty + BucketNanos
  {
  }

  /** Highs 5, 3, 8 and lows 1, 4, 2 in one bucket give high 8 and low 1, in whatever order they arrive. */
  lemma ExtremesInAnyOrder(rows: seq<Row>)
    requires multiset(rows) == multiset([At(NineThirty, 5, 1, 0), At(NineThirty + 1, 3, 4, 0), At(NineThirty + 2, 8, 2, 0)])
    ensures NineThirty in Fold(Init, rows).candles
    ensures Fold(Init, rows).candles[NineThirty].high == 8
    ensures Fold(Init, rows).candles[NineThirty].low == 1
  {
    var base := [At(NineThirty, 5, 1, 0), At(NineThirty + 1, 3, 4, 0), At(NineThirty + 2, 8, 2, 0)];
    KeyIff(NineThirty, NineThirty);
    KeyIff(NineThirty + 1, NineThirty);
    KeyIff(NineThirty + 2, NineThirty);
    FoldThree(Init, base[0], base[1], base[2]);
    CandleExtremesOrderFree(base, rows);
  }

  /** Rows A (close 10) then B (close 20): close is 20 even though B is timestamped earlier. */
  lemma CloseFollowsProcessingOrder()
    ensures var t := Fold(Init, [At(NineThirty + 2, 10, 10, 10), At(NineThirty + 1, 20, 20, 20)]);
      NineThirty in t.candles && t.candles[NineThirty].close == 20 && t.close == 20
  {
  }

  /**
   * Lows 5, 0, 3 in one bucket: the candle's low is 0, but the daily low
   * ends at 3, because a daily low of 0 reads as unset and the next row
   * replaces it.
   */
  lemma ZeroLowReadsAsUnset()
    ensures var t := Fold(Init, [At(NineThirty, 9, 5, 7), At(NineThirty + 1, 9, 0, 7), At(NineThirty + 2, 9, 3, 7)]);
      NineThirty in t.candles && t.candles[NineThirty].low == 0 && t.low == 3
  {
    var rows := [At(NineThirty, 9, 5, 7), At(NineThirty + 1, 9, 0, 7), At(NineThirty + 2, 9, 3, 7)];
    KeyIff(NineThirty, NineThirty);
    KeyIff(NineThirty + 1, NineThirty);
    KeyIff(NineThirty + 2, NineThirty);
    FoldThree(Init, rows[0], rows[1], rows[2]);
  }
}
