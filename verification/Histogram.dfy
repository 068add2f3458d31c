/**
 The log-linear latency histogram: the C side that tallies datapoints and the script that prints the buckets.
 The two never share code; the bounds the script prints must be those of the values the C side counted.
 */
module Histogram {
  import opened Arith
  import opened Bits

  // ---- the C side ----

  function BitLength(v: nat): nat { if v == 0 then 0 else 1 + BitLength(v / 2) }

  /** `__builtin_clzll`, and 64 for zero. */
  function Clz(v: nat): int { 64 - BitLength(v) }

  function BucketRange(s: nat, v: nat): nat
    requires s <= 64
  {
    if 0 <= Clz(v) <= 64 - s then 64 - s - Clz(v) else 0
  }

  function BucketIndex(s: nat, v: nat, range: nat): nat {
    And(Shr(v, if range == 0 then 0 else range - 1), Pow2(s) - 1)
  }

  lemma {:induction false} BitLengthBounds(v: nat)
    requires v > 0
    ensures BitLength(v) > 0 && Pow2(BitLength(v) - 1) <= v < Pow2(BitLength(v))
  {
    if v >= 2 {
      BitLengthBounds(v / 2);
    } else {
      assert BitLength(0) == 0;
    }
  }

  lemma BitLengthUnique(v: nat, n: nat)
    requires v > 0 && n > 0
    ensures BitLength(v) == n <==> Pow2(n - 1) <= v < Pow2(n)
  {
    hide BitLength, Pow2;
    BitLengthBounds(v);
    var m := BitLength(v);
    if m < n {
      PowMonotone(m, n - 1);
    } else if n < m {
      PowMonotone(n, m - 1);
    }
  }

  // ---- the script ----

  /** The bound the script computes for the end of bucket `j` of range `i`. */
  function BucketEnd(s: nat, i: nat, j: nat): nat {
    if i > 0 then Pow2(i + s - 1) + (j + 1) * Pow2(i - 1) else j + 1
  }

  /** Where that bucket starts. */
  function BucketStart(s: nat, i: nat, j: nat): nat {
    if i > 0 then Pow2(i + s - 1) + j * Pow2(i - 1) else j
  }

  /** Buckets follow each other without gaps, and range `i` ends at `2^(i+s)`. */
  lemma BucketsAreContiguous(s: nat, i: nat, j: nat)
    ensures BucketEnd(s, i, j) == BucketStart(s, i, j + 1) > BucketStart(s, i, j)
    ensures BucketEnd(s, i, Pow2(s) - 1) == BucketStart(s, i + 1, 0) == Pow2(i + s)
  {
    if i > 0 {
      PowAdd(s, i - 1);
      assert (j + 1) * Pow2(i - 1) == j * Pow2(i - 1) + Pow2(i - 1);
      assert Pow2(i + s) == 2 * Pow2(i + s - 1);
    } else {
      assert Pow2(s) * Pow2(0) == Pow2(s);
    }
  }

  lemma QuotientIs(v: nat, m: nat, q: nat)
    requires m > 0
    ensures v / m == q <==> q * m <= v < q * m + m
  {
    assert v == (v / m) * m + v % m;
    if q * m <= v < q * m + m {
      DivModUnique(v, m, q, v - q * m);
    }
  }

  lemma RangeZero(s: nat, v: nat)
    requires s <= 64 && v < Pow2(64)
    ensures BucketRange(s, v) == 0 <==> v < Pow2(s)
  {
    hide Pow2, BitLength;
    if v == 0 {
      ZeroLength();
    } else {
      BitLengthBounds(v);
      var n := BitLength(v);
      if n <= s {
        PowMonotone(n, s);
      } else {
        PowMonotone(s, n - 1);
      }
      if 64 < n {
        PowMonotone(64, n - 1);
      }
    }
  }

  lemma ZeroLength()
    ensures BitLength(0) == 0
  {
  }

  lemma RangeIs(s: nat, v: nat, i: nat)
    requires s <= 64 && v < Pow2(64) && i > 0
    ensures BucketRange(s, v) == i <==> Pow2(i + s - 1) <= v < Pow2(i + s)
  {
    hide Pow2, BitLength;
    if v == 0 {
      ZeroLength();
    } else {
      BitLengthUnique(v, i + s);
      BitLengthBounds(v);
      if 64 < BitLength(v) {
        PowMonotone(64, BitLength(v) - 1);
      }
    }
  }

  /** The C side counts `v` in bucket `(i, j)` exactly when `v` lies between the bounds the script prints for it. */
  lemma BoundsMatchTally(s: nat, v: nat, i: nat, j: nat)
    requires s <= 64 && v < Pow2(64) && j < Pow2(s)
    ensures BucketRange(s, v) == i && BucketIndex(s, v, i) == j
            <==> BucketStart(s, i, j) <= v < BucketEnd(s, i, j)
  {
    if i == 0 {
      RangeZero(s, v);
      AndMask(v, s);
      if v < Pow2(s) {
        SmallMod(v, Pow2(s));
      }
    } else {
      UpperRange(s, v, i, j);
    }
  }

  /** Within range `i` the quotient lies in [2^s, 2^(s+1)), so the mask subtracts 2^s. */
  lemma IndexIs(s: nat, v: nat, i: nat, j: nat)
    requires i > 0 && j < Pow2(s) && Pow2(s) * Pow2(i - 1) <= v < 2 * (Pow2(s) * Pow2(i - 1))
    ensures BucketIndex(s, v, i) == j <==> (Pow2(s) + j) * Pow2(i - 1) <= v < (Pow2(s) + j) * Pow2(i - 1) + Pow2(i - 1)
  {
    hide Pow2, And, Shr;
    var m, p := Pow2(i - 1), Pow2(s);
    ShrDivides(v, i - 1);
    var q := Shr(v, i - 1);
    AndMask(q, s);
    QuotientBetween(v, m, p);
    DivModUnique(q, p, 1, q - p);
    QuotientIs(v, m, p + j);
  }

  lemma UpperRange(s: nat, v: nat, i: nat, j: nat)
    requires s <= 64 && v < Pow2(64) && j < Pow2(s) && i > 0
    ensures BucketRange(s, v) == i && BucketIndex(s, v, i) == j
            <==> BucketStart(s, i, j) <= v < BucketEnd(s, i, j)
  {
    hide Pow2, BucketRange, BucketIndex, BucketStart, BucketEnd;
    RangeIs(s, v, i);
    BoundsAre(s, i, j);
    if BucketRange(s, v) == i {
      IndexIs(s, v, i, j);
    }
  }

  /** The bounds of bucket `j` in units of its width, and the bounds of the range around it. */
  lemma BoundsAre(s: nat, i: nat, j: nat)
    requires i > 0 && j < Pow2(s)
    ensures BucketStart(s, i, j) == (Pow2(s) + j) * Pow2(i - 1)
    ensures BucketEnd(s, i, j) == (Pow2(s) + j) * Pow2(i - 1) + Pow2(i - 1)
    ensures Pow2(i + s - 1) == Pow2(s) * Pow2(i - 1) <= BucketStart(s, i, j)
    ensures BucketEnd(s, i, j) <= 2 * (Pow2(s) * Pow2(i - 1)) == Pow2(i + s)
  {
    hide Pow2;
    var m, p := Pow2(i - 1), Pow2(s);
    PowAdd(s, i - 1);
    PowAdd(1, i + s - 1);
    PowOne();
    assert (p + j) * m == p * m + j * m && (j + 1) * m == j * m + m;
    MulMonotone(j + 1, p, m);
    MulMonotone(0, j, m);
  }

  lemma PowOne()
    ensures Pow2(1) == 2
  {
  }

  lemma QuotientBetween(v: nat, m: nat, p: nat)
    requires m > 0 && p * m <= v < 2 * (p * m)
    ensures p <= v / m < 2 * p
  {
    var q := v / m;
    assert v == q * m + v % m;
    assert (q + 1) * m == q * m + m;
    MulCancelLess(p, q + 1, m);
    assert (2 * p) * m == 2 * (p * m);
    MulCancelLess(q, 2 * p, m);
  }

  /** Beyond range 0 a bucket is narrow for its position: its width times `2^s` is at most its start. */
  lemma RelativeWidth(s: nat, i: nat, j: nat)
    requires i > 0
    ensures (BucketEnd(s, i, j) - BucketStart(s, i, j)) * Pow2(s) <= BucketStart(s, i, j)
  {
    hide Pow2;
    PowAdd(s, i - 1);
    var m := Pow2(i - 1);
    assert (j + 1) * m == j * m + m;
    MulMonotone(0, j, m);
    assert m * Pow2(s) == Pow2(s) * m;
  }

  /** The script goes up to range 63 - s: it shows a value if and only if it is below 2^63, although the C side
      has one more range. */
  lemma ShownIffBelow(s: nat, v: nat)
    requires s < 64 && v < Pow2(64)
    ensures BucketRange(s, v) < 64 - s <==> v < Pow2(63)
    ensures BucketRange(s, v) <= 64 - s
  {
    hide Pow2, BitLength;
    if v == 0 {
      ZeroLength();
      PowMonotone(0, 63);
      PowZero();
    } else {
      BitLengthUnique(v, 64);
      BitLengthBounds(v);
      if 64 < BitLength(v) {
        PowMonotone(64, BitLength(v) - 1);
      } else if BitLength(v) < 64 {
        PowMonotone(BitLength(v), 63);
      }
    }
  }

  lemma PowZero()
    ensures Pow2(0) == 1
  {
  }
}
