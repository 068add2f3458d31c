/** Tallying on the C side, printing in the script, and what the printed table says about the datapoints. */
module HistogramReport {
  import opened Arith
  import opened Bits
  import opened Histogram

  /** Position of bucket `j` of range `i` in the flat array: `(i << s) + j`. */
  function Cell(s: nat, i: nat, j: nat): nat { i * Pow2(s) + j }

  lemma CellInjective(s: nat, i: nat, j: nat, i': nat, j': nat)
    requires j < Pow2(s) && j' < Pow2(s) && Cell(s, i, j) == Cell(s, i', j')
    ensures i == i' && j == j'
  {
    DivModUnique(Cell(s, i, j), Pow2(s), i, j);
    DivModUnique(Cell(s, i, j), Pow2(s), i', j');
  }

  lemma CellBound(s: nat, i: nat, j: nat, n: nat)
    requires j < Pow2(s)
    ensures Cell(s, i, j) < Cell(s, n, 0) <==> i < n
  {
    if i < n {
      MulMonotone(i + 1, n, Pow2(s));
      assert (i + 1) * Pow2(s) == i * Pow2(s) + Pow2(s);
    } else {
      MulMonotone(n, i, Pow2(s));
    }
  }

  function Occurs(s: nat, data: seq<nat>, i: nat, j: nat): nat
    requires s <= 64
  {
    if data == [] then 0
    else
      var v := data[|data| - 1];
      Occurs(s, data[..|data| - 1], i, j) + (if BucketRange(s, v) == i && BucketIndex(s, v, i) == j then 1 else 0)
  }

  /** How many datapoints lie in `[a, b)`. */
  function CountBetween(data: seq<nat>, a: nat, b: nat): nat {
    if data == [] then 0
    else CountBetween(data[..|data| - 1], a, b) + (if a <= data[|data| - 1] < b then 1 else 0)
  }

  lemma {:induction false} OccursIsCount(s: nat, data: seq<nat>, i: nat, j: nat)
    requires s <= 64 && j < Pow2(s) && forall k :: 0 <= k < |data| ==> data[k] < Pow2(64)
    ensures Occurs(s, data, i, j) == CountBetween(data, BucketStart(s, i, j), BucketEnd(s, i, j))
  {
    hide Pow2, BucketRange, BucketIndex, BucketStart, BucketEnd;
    if data != [] {
      OccursIsCount(s, data[..|data| - 1], i, j);
      BoundsMatchTally(s, data[|data| - 1], i, j);
    }
  }

  /** Sum of the first `n` counts; positions beyond the array read as zero, as a slice past the end does. */
  function PrefixSum(hist: seq<nat>, n: nat): nat {
    if n == 0 then 0 else PrefixSum(hist, n - 1) + Count(hist, n - 1)
  }

  function Count(hist: seq<nat>, k: nat): nat { if k < |hist| then hist[k] else 0 }

  lemma {:induction false} PrefixSumUpdate(hist: seq<nat>, k: nat, x: nat, n: nat)
    requires k < |hist|
    ensures PrefixSum(hist[k := x], n) + (if k < n then hist[k] else 0) == PrefixSum(hist, n) + (if k < n then x else 0)
  {
    if n > 0 {
      PrefixSumUpdate(hist, k, x, n - 1);
    }
  }

  /** Every bucket holds the number of datapoints tallied in it. */
  ghost predicate BucketsOk(s: nat, bucket: seq<nat>, data: seq<nat>)
    requires s < 64
  {
    && |bucket| == Cell(s, 65 - s, 0)
    && (forall i: nat, j: nat :: i <= 64 - s && j < Pow2(s) && Cell(s, i, j) < |bucket| ==>
          bucket[Cell(s, i, j)] == Occurs(s, data, i, j))
  }

  lemma OccursSnoc(s: nat, data: seq<nat>, v: nat, i: nat, j: nat)
    requires s <= 64
    ensures Occurs(s, data + [v], i, j)
            == Occurs(s, data, i, j) + (if BucketRange(s, v) == i && BucketIndex(s, v, i) == j then 1 else 0)
  {
    assert (data + [v])[..|data|] == data;
  }

  lemma TallyKeeps(s: nat, bucket: seq<nat>, data: seq<nat>, v: nat)
    requires s < 64 && BucketsOk(s, bucket, data) && v < Pow2(64)
    ensures var k := Cell(s, BucketRange(s, v), BucketIndex(s, v, BucketRange(s, v)));
      k < |bucket| && BucketsOk(s, bucket[k := bucket[k] + 1], data + [v])
  {
    hide Pow2, BucketRange, BucketIndex, Cell, Occurs;
    var range := BucketRange(s, v);
    var index := BucketIndex(s, v, range);
    IndexBound(s, v, range);
    ShownIffBelow(s, v);
    CellBound(s, range, index, 65 - s);
    var k := Cell(s, range, index);
    forall i: nat, j: nat | i <= 64 - s && j < Pow2(s) && Cell(s, i, j) < |bucket|
      ensures bucket[k := bucket[k] + 1][Cell(s, i, j)] == Occurs(s, data + [v], i, j)
    {
      OccursSnoc(s, data, v, i, j);
      if Cell(s, i, j) == k {
        CellInjective(s, i, j, range, index);
      }
    }
  }

  class HistogramData {
    const shift: nat
    var bucket: seq<nat>
    ghost var data: seq<nat>

    ghost predicate Valid()
      reads this
    {
      && shift < 64 && BucketsOk(shift, bucket, data)
      && (forall k :: 0 <= k < |data| ==> data[k] < Pow2(64))
      && PrefixSum(bucket, Cell(shift, 64 - shift, 0)) == CountBetween(data, 0, Pow2(63))
    }

    constructor (s: nat)
      requires s < 64
      ensures Valid() && shift == s && data == []
    {
      shift := s;
      bucket := seq(Cell(s, 65 - s, 0), _ => 0);
      data := [];
      new;
      ZeroSum(bucket, Cell(s, 64 - s, 0));
    }

    /** spdk_histogram_data_tally. */
    method Tally(v: nat)
      requires Valid() && v < Pow2(64)
      modifies this
      ensures Valid() && data == old(data) + [v]
    {
      hide Pow2, BucketRange, BucketIndex, Cell, PrefixSum, BucketsOk;
      TallyKeeps(shift, bucket, data, v);
      var range := BucketRange(shift, v);
      var index := BucketIndex(shift, v, range);
      IndexBound(shift, v, range);
      ShownIffBelow(shift, v);
      CellBound(shift, range, index, 64 - shift);
      var k := Cell(shift, range, index);
      PrefixSumUpdate(bucket, k, bucket[k] + 1, Cell(shift, 64 - shift, 0));
      bucket := bucket[k := bucket[k] + 1];
      data := data + [v];
      assert data[..|data| - 1] == old(data);
    }
  }

  lemma IndexBound(s: nat, v: nat, range: nat)
    ensures BucketIndex(s, v, range) < Pow2(s)
  {
    AndMask(Shr(v, if range == 0 then 0 else range - 1), s);
  }

  lemma {:induction false} ZeroSum(hist: seq<nat>, n: nat)
    requires forall k :: 0 <= k < |hist| ==> hist[k] == 0
    ensures PrefixSum(hist, n) == 0
  {
    if n > 0 {
      ZeroSum(hist, n - 1);
    }
  }

  /** One line of the table, bounds in ticks. */
  datatype Row = Row(start: nat, end: nat, count: nat, soFar: nat)

  ghost predicate RowOk(hist: seq<nat>, s: nat, i: nat, j: nat, r: Row) {
    r == Row(BucketStart(s, i, j), BucketEnd(s, i, j), Count(hist, Cell(s, i, j)), PrefixSum(hist, Cell(s, i, j) + 1))
  }

  /** The two nested loops of the script. */
  method Report(hist: seq<nat>, s: nat) returns (total: nat, table: seq<seq<Row>>)
    requires s < 64
    ensures total == 1 + PrefixSum(hist, Cell(s, 64 - s, 0))
    ensures |table| == 64 - s && forall i :: 0 <= i < |table| ==> |table[i]| == Pow2(s)
    ensures forall i, j :: 0 <= i < |table| && 0 <= j < |table[i]| ==> RowOk(hist, s, i, j, table[i][j])
  {
    hide Pow2, BucketStart, BucketEnd;
    total := Total(hist, s);
    table := [];
    var soFar, bucket := 0, 0;
    StartsAtZero(hist, s);
    for i := 0 to 64 - s
      invariant |table| == i && soFar == PrefixSum(hist, Cell(s, i, 0)) && bucket == BucketStart(s, i, 0)
      invariant forall a :: 0 <= a < i ==> |table[a]| == Pow2(s)
      invariant forall a, b :: 0 <= a < i && 0 <= b < |table[a]| ==> RowOk(hist, s, a, b, table[a][b])
    {
      var row: seq<Row>;
      row, soFar, bucket := ReportRange(hist, s, i, soFar, bucket);
      table := table + [row];
    }
  }

  lemma StartsAtZero(hist: seq<nat>, s: nat)
    ensures PrefixSum(hist, Cell(s, 0, 0)) == 0 && BucketStart(s, 0, 0) == 0
  {
  }

  /** The inner loop: the buckets of one range. */
  method ReportRange(hist: seq<nat>, s: nat, i: nat, soFar0: nat, bucket0: nat)
    returns (row: seq<Row>, soFar: nat, bucket: nat)
    requires soFar0 == PrefixSum(hist, Cell(s, i, 0)) && bucket0 == BucketStart(s, i, 0)
    ensures |row| == Pow2(s) && forall j :: 0 <= j < |row| ==> RowOk(hist, s, i, j, row[j])
    ensures soFar == PrefixSum(hist, Cell(s, i + 1, 0)) && bucket == BucketStart(s, i + 1, 0)
  {
    row, soFar, bucket := [], soFar0, bucket0;
    for j := 0 to Pow2(s)
      invariant |row| == j && soFar == PrefixSum(hist, Cell(s, i, j))
      invariant bucket == BucketStart(s, i, j)
      invariant forall b :: 0 <= b < j ==> RowOk(hist, s, i, b, row[b])
    {
      var count := Count(hist, Cell(s, i, j));
      soFar := soFar + count;
      var last := bucket;
      if i > 0 {
        bucket := Pow2(i + s - 1);
        bucket := bucket + (j + 1) * Pow2(i - 1);
      } else {
        bucket := j + 1;
      }
      NextCell(s, i, j);
      BucketsAreContiguous(s, i, j);
      row := row + [Row(last, bucket, count, soFar)];
    }
    BucketsAreContiguous(s, i, Pow2(s) - 1);
    NextRange(s, i);
  }

  lemma NextCell(s: nat, i: nat, j: nat)
    ensures Cell(s, i, j + 1) == Cell(s, i, j) + 1
  {
  }

  lemma NextRange(s: nat, i: nat)
    ensures Cell(s, i, Pow2(s)) == Cell(s, i + 1, 0)
  {
    assert (i + 1) * Pow2(s) == i * Pow2(s) + Pow2(s);
  }

  /** The first pair of loops: `total` starts at one. */
  method Total(hist: seq<nat>, s: nat) returns (total: nat)
    requires s < 64
    ensures total == 1 + PrefixSum(hist, Cell(s, 64 - s, 0))
  {
    hide Pow2;
    total := 1;
    StartsAtZero(hist, s);
    for i := 0 to 64 - s
      invariant total == 1 + PrefixSum(hist, Cell(s, i, 0))
    {
      for j := 0 to Pow2(s)
        invariant total == 1 + PrefixSum(hist, Cell(s, i, j))
      {
        NextCell(s, i, j);
        total := total + Count(hist, Cell(s, i, j));
      }
      NextRange(s, i);
    }
  }

  /** Every line the script prints for a tallied histogram states the true number of datapoints between its bounds,
      and the last cumulative count is the number of datapoints below 2^63. */
  lemma TableIsTrue(h: HistogramData, table: seq<seq<Row>>, i: nat, j: nat)
    requires h.Valid() && i < 64 - h.shift && j < Pow2(h.shift)
    requires |table| == 64 - h.shift && |table[i]| == Pow2(h.shift) && RowOk(h.bucket, h.shift, i, j, table[i][j])
    ensures table[i][j].count == CountBetween(h.data, table[i][j].start, table[i][j].end)
    ensures i == 63 - h.shift && j == Pow2(h.shift) - 1 ==> table[i][j].soFar == CountBetween(h.data, 0, Pow2(63))
  {
    hide Pow2, BucketStart, BucketEnd, Occurs, CountBetween;
    CellBound(h.shift, i, j, 65 - h.shift);
    OccursIsCount(h.shift, h.data, i, j);
    NextRange(h.shift, i);
  }
}
