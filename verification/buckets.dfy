/**
 * The 5-minute bucket key: `timestamp.Truncate(5 * time.Minute)`, formatted to
 * whole minutes.  The formatted key names each 5-minute-aligned instant
 * uniquely, so a key is modelled as the bucket's first nanosecond.
 */
module Buckets {
  import opened RowFilter

  /** Width of one candle: 5 minutes in nanoseconds. */
  const BucketNanos: int := 5 * 60 * NanosPerSecond

  /** Number of 5-minute buckets in one day. */
  const BucketsPerDay: int := 288

  /**
   * Go's zero Time, 0001-01-01 00:00:00 UTC, in nanoseconds relative to the
   * Unix epoch.  `Truncate` rounds down to a multiple of the width counted
   * from this instant, not from the epoch.
   */
  const ZeroTimeNanos: int := -62_135_596_800 * NanosPerSecond

  /** `k` is the start of some 5-minute bucket. */
  predicate Aligned(k: int) {
    k % BucketNanos == 0
  }

  /**
   * The bucket key of a nanosecond instant: Go's `Truncate`, rounding down to
   * a multiple of 5 minutes since the zero Time.  It is the aligned instant
   * whose half-open 5-minute window contains `ns`.
   */
  function BucketKey(ns: int): (k: int)
    ensures Aligned(k)
    ensures k <= ns < k + BucketNanos
  {
    ZeroTimeShift(ns);
    ns - (ns - ZeroTimeNanos) % BucketNanos
  }

  /** The zero Time is itself bucket-aligned, so measuring from it or from the epoch agrees. */
  lemma ZeroTimeShift(ns: int)
    ensures (ns - ZeroTimeNanos) % BucketNanos == ns % BucketNanos
  {
  }

  /** Two distinct aligned instants are at least one bucket apart. */
  lemma AlignedGap(a: int, b: int)
    requires Aligned(a) && Aligned(b) && a < b
    ensures a + BucketNanos <= b
  {
  }

  /** The key of `ns` is the unique aligned `k` with `k <= ns < k + 5 minutes`. */
  lemma KeyIff(ns: int, k: int)
    requires Aligned(k)
    ensures BucketKey(ns) == k <==> k <= ns < k + BucketNanos
  {
  }

  /** Two instants share a key exactly when they fall in the same half-open 5-minute window. */
  lemma SameBucketIff(a: int, b: int)
    ensures BucketKey(a) == BucketKey(b) <==> BucketKey(a) <= b < BucketKey(a) + BucketNanos
  {
  }

  /** The target day starts and ends on bucket boundaries: 288 buckets per day. */
  lemma DayIsWholeBuckets()
    ensures Aligned(DayStart) && Aligned(DayEnd)
    ensures DayEnd == DayStart + BucketsPerDay * BucketNanos
  {
  }

  /** Every instant of the target day has its key inside the target day. */
  lemma KeyInDay(ns: int)
    requires DayStart <= ns < DayEnd
    ensures DayStart <= BucketKey(ns) < DayEnd
  {
  }

  /** At most `count` aligned instants fit in `[lo, lo + count buckets)`. */
  lemma {:induction false} AlignedCount(s: set<int>, lo: int, count: nat)
    requires Aligned(lo)
    requires forall k :: k in s ==> Aligned(k) && lo <= k < lo + count * BucketNanos
    ensures |s| <= count
  {
    if count == 0 {
      assert s == {} by {
        forall k | k in s ensures false { }
      }
    } else {
      var top := lo + (count - 1) * BucketNanos;
      assert Aligned(top) by {
        assert top == (lo / BucketNanos + count - 1) * BucketNanos;
      }
      var rest := s - {top};
      forall k | k in rest
        ensures lo <= k < lo + (count - 1) * BucketNanos
      {
        if k > top { AlignedGap(top, k); }
      }
      AlignedCount(rest, lo, count - 1);
    }
  }

  /** A set of keys from the target day has at most 288 elements. */
  lemma DayKeysAtMost(keys: set<int>)
    requires forall k :: k in keys ==> Aligned(k) && DayStart <= k < DayEnd
    ensures |keys| <= BucketsPerDay
  {
    DayIsWholeBuckets();
    AlignedCount(keys, DayStart, BucketsPerDay);
  }
}
