/** dd_run up to the start of the slots, for a copy between two block devices. */
module DdSetUp {
  import opened Basics
  import opened Arith
  import opened DdModel
  import opened DdTheorems
  import opened DdComplete
  import opened DdDeadlock

  /** The command line: --skip, --seek, --bs, --count, --qd and --sparse. */
  datatype Options = Options(skip: nat, seek: nat, unit: Positive, count: nat, depth: nat, sparse: bool)

  datatype Bdev = Bdev(bytes: seq<Byte>, hole: seq<bool>, block: Positive)

  datatype Result<T> = Ok(value: T) | Err(code: int)

  const ENOSPC := 28
  const EINVAL := 22

  /** The queue depth dd_open_bdev leaves for a device of `total` bytes. */
  function OpenDepth(o: Options, depth: nat, total: nat, skip: nat): nat {
    var limited := Min(depth, (Sub64(total / o.unit, skip) + 1) % TWO64);
    if o.count != 0 then Min(limited, o.count) else limited
  }

  function SetUp(o: Options, input: Bdev, output: Bdev): Result<Config> {
    var inTotal, outTotal := |input.bytes|, |output.bytes|;
    var pos, outPos := o.skip * o.unit, o.seek * o.unit;
    var writeSize := o.count * o.unit;
    var depth := OpenDepth(o, OpenDepth(o, o.depth, inTotal, o.skip), outTotal, o.seek);
    if pos > inTotal then Err(-ENOSPC)
    else if o.count != 0 && writeSize + pos > inTotal then Err(-ENOSPC)
    else if outPos > outTotal then Err(-ENOSPC)
    else if o.count != 0 && writeSize + outPos > outTotal then Err(-ENOSPC)
    else if output.block > o.unit || input.block > o.unit then Err(-EINVAL)
    else if o.unit % input.block != 0 then Err(-EINVAL)
    else
      var copySize := if o.count != 0 then writeSize else inTotal - pos;
      Ok(Config(input.bytes, input.hole, output.bytes, outTotal, false, output.block, o.unit, o.skip, o.seek,
                copySize, depth, if o.sparse then SparseBdev else Dense))
  }

  lemma QuotientBound(k: nat, u: Positive, total: nat)
    requires k * u <= total
    ensures k <= total / u
    ensures k * u == total ==> total / u == k
  {
    var q := total / u;
    assert total == q * u + total % u;
    MulCancelLess(k, q + 1, u);
    if k * u == total {
      DivModUnique(total, u, k, 0);
    }
  }

  /** A device is a whole number of blocks and smaller than the 64-bit address space. */
  ghost predicate DeviceOk(d: Bdev) { |d.bytes| % d.block == 0 && |d.bytes| < TWO64 - 1 }

  /** Accepted command lines keep at least one slot, and only one when there is nothing to copy. */
  lemma SetUpDepth(o: Options, input: Bdev, output: Bdev)
    requires SetUp(o, input, output).Ok? && DeviceOk(input) && DeviceOk(output) && o.depth > 0
    ensures 1 <= SetUp(o, input, output).value.depth <= o.depth
    ensures SetUp(o, input, output).value.copySize == 0 ==> SetUp(o, input, output).value.depth == 1
  {
    hide OpenDepth;
    OpenDepthBounds(o, o.depth, |input.bytes|, o.skip);
    OpenDepthBounds(o, OpenDepth(o, o.depth, |input.bytes|, o.skip), |output.bytes|, o.seek);
    assert o.count > 0 ==> o.count * o.unit > 0;
  }

  /** Opening a device that reaches as far as the offset leaves a slot, and only one at its very end. */
  lemma OpenDepthBounds(o: Options, depth: nat, total: nat, skip: nat)
    requires skip * o.unit <= total < TWO64 - 1 && depth > 0
    ensures 1 <= OpenDepth(o, depth, total, skip) <= depth
    ensures skip * o.unit == total ==> OpenDepth(o, depth, total, skip) == 1
  {
    QuotientBound(skip, o.unit, total);
    QuotientSmall(total, o.unit);
    var free := total / o.unit - skip;
    DivModUnique(free + 1, TWO64, 0, free + 1);
  }

  lemma QuotientSmall(x: nat, u: Positive)
    ensures x / u <= x
  {
    assert x == (x / u) * u + x % u;
    MulMonotone(1, u, x / u);
    assert (x / u) * u == u * (x / u);
  }

  /** The checks of dd_run leave two things to the user: that --bs is a multiple of the output's block size, and,
      without --count, that the rest of the input fits the output. */
  predicate UserChecks(o: Options, input: Bdev, output: Bdev) {
    && o.unit % output.block == 0
    && (o.count == 0 ==> o.seek * o.unit + |input.bytes| - o.skip * o.unit <= |output.bytes|)
  }

  lemma SetUpValid(o: Options, input: Bdev, output: Bdev)
    requires SetUp(o, input, output).Ok? && DeviceOk(input) && DeviceOk(output) && !o.sparse
    requires UserChecks(o, input, output)
    ensures SetUp(o, input, output).value.Valid()
  {
  }

  /** Holes are whole input blocks of zeros, output blocks divide input blocks, and the output is zeroed. */
  ghost predicate HolesOk(o: Options, input: Bdev, output: Bdev) {
    && |input.hole| == |input.bytes| && input.block % output.block == 0
    && (forall p :: 0 <= p < |input.hole| && input.hole[p] ==> input.bytes[p] == 0)
    && (forall p :: 0 < p < |input.hole| && input.hole[p] != input.hole[p - 1] ==> p % input.block == 0)
    && (forall q :: o.seek * o.unit <= q < |output.bytes| ==> output.bytes[q] == 0)
  }

  lemma SparseSetUp(o: Options, input: Bdev, output: Bdev)
    requires SetUp(o, input, output).Ok? && DeviceOk(input) && DeviceOk(output) && o.sparse && o.count == 0
    requires UserChecks(o, input, output) && HolesOk(o, input, output)
    ensures SetUp(o, input, output).value.Valid()
  {
    var c := SetUp(o, input, output).value;
    forall p | c.Start() < p < |input.bytes| && input.hole[p] != input.hole[p - 1]
      ensures c.Aligned(p - c.Start())
    {
      Divides(p, input.block, output.block);
      MultipleOfMultiple(o.skip, o.unit, output.block);
      MultiplesAdd(p, c.Start(), output.block);
    }
  }

  lemma Divides(x: int, a: Positive, b: Positive)
    requires x % a == 0 && a % b == 0
    ensures x % b == 0
  {
    assert x == (x / a) * a;
    MultipleOfMultiple(x / a, a, b);
  }

  // ---- from the command line to the copied bytes ----

  /** What `dd` is asked for: --count units, or all there is, from --skip in the input to --seek in the output. */
  function Asked(o: Options, input: Bdev): int {
    if o.count != 0 then o.count * o.unit else |input.bytes| - o.skip * o.unit
  }

  ghost predicate CopyDone(o: Options, input: Bdev, output: Bdev, result: seq<Byte>) {
    var from, to, n := o.skip * o.unit, o.seek * o.unit, Asked(o, input);
    && 0 <= n && from + n <= |input.bytes| && to + n <= |output.bytes|
    && result == output.bytes[..to] + input.bytes[from..from + n] + output.bytes[to + n..]
  }

  /** `t` ends a run in which nothing fails, nobody interrupts and nothing more can happen. */
  ghost predicate CleanRun(c: Config, buf: seq<Byte>, rcs: seq<int>, es: seq<Event>, t: State) {
    && |buf| == c.unit && |rcs| == c.depth && Run(c, Started(c, buf, false, rcs), es, t)
    && (forall k :: 0 <= k < |rcs| ==> rcs[k] == 0) && (forall k :: 0 <= k < |es| ==> Clean(es[k]))
    && (forall i: nat :: !Enabled(t, Device(i)) && !Enabled(t, Complete(i, 0, 0, 0)))
  }

  /** End to end: an accepted command line whose block size and room are right makes spdk_dd copy what was asked for. */
  lemma CommandLineCopies(o: Options, input: Bdev, output: Bdev, buf: seq<Byte>, rcs: seq<int>, es: seq<Event>, t: State)
    requires SetUp(o, input, output).Ok? && DeviceOk(input) && DeviceOk(output) && !o.sparse && o.depth > 0
    requires UserChecks(o, input, output) && CleanRun(SetUp(o, input, output).value, buf, rcs, es, t)
    ensures t.exits != [] && CopyDone(o, input, output, t.output)
    ensures forall k :: 0 <= k < |t.exits| ==> t.exits[k] == 0
  {
    hide Config.Valid, Started, Run, OpenDepth;
    SetUpDepth(o, input, output);
    SetUpValid(o, input, output);
    CleanRunsCopy(SetUp(o, input, output).value, buf, rcs, es, t);
  }

  /** The same for sparse copies, provided the job is not one that can hang. */
  lemma SparseCommandLineCopies(o: Options, input: Bdev, output: Bdev, buf: seq<Byte>, rcs: seq<int>, es: seq<Event>, t: State)
    requires SetUp(o, input, output).Ok? && DeviceOk(input) && DeviceOk(output) && o.sparse && o.count == 0 && o.depth > 0
    requires UserChecks(o, input, output) && HolesOk(o, input, output) && !CanHang(SetUp(o, input, output).value)
    requires CleanRun(SetUp(o, input, output).value, buf, rcs, es, t)
    ensures t.exits != [] && CopyDone(o, input, output, t.output)
  {
    hide Config.Valid, Started, Run, OpenDepth, CanHang, HolesOk;
    SetUpDepth(o, input, output);
    SparseSetUp(o, input, output);
    SafeBdevRunsCopy(SetUp(o, input, output).value, buf, rcs, es, t);
  }
}
