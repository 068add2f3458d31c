/** Scatter-gather lists of a perf task: how a buffer is cut into iovecs and walked by the NVMe driver. */
module PerfSgl {
  import opened Basics
  import opened Arith

  datatype Iovec = Iovec(start: nat, len: nat)

  /** Bytes in the first `k` pieces. */
  function Prefix(iovs: seq<Iovec>, k: nat): nat
    requires k <= |iovs|
  {
    if k == 0 then 0 else Prefix(iovs, k - 1) + iovs[k - 1].len
  }

  /** The pieces follow each other from `buf` on, none is empty, and all but the last have `unit` bytes. */
  ghost predicate Pieces(iovs: seq<Iovec>, buf: nat, length: nat, unit: Positive) {
    && Prefix(iovs, |iovs|) == length
    && (forall k :: 0 <= k < |iovs| ==> iovs[k].start == buf + Prefix(iovs, k) && 0 < iovs[k].len <= unit)
    && (forall k :: 0 <= k < |iovs| - 1 ==> iovs[k].len == unit)
  }

  lemma EmptyPrefix(iovs: seq<Iovec>)
    ensures Prefix(iovs, 0) == 0
  {
  }

  lemma PrefixStep(iovs: seq<Iovec>, k: nat)
    requires k < |iovs|
    ensures Prefix(iovs, 0) == 0 && Prefix(iovs, k + 1) == Prefix(iovs, k) + iovs[k].len
  {
  }

  lemma {:induction false} PrefixExtends(a: seq<Iovec>, b: seq<Iovec>, k: nat)
    requires k <= |a| && k <= |b| && a[..k] == b[..k]
    ensures Prefix(a, k) == Prefix(b, k)
  {
    if k > 0 {
      assert a[..k][k - 1] == b[..k][k - 1];
      assert a[..k - 1] == a[..k][..k - 1] && b[..k - 1] == b[..k][..k - 1];
      PrefixExtends(a, b, k - 1);
    }
  }

  lemma {:induction false} PrefixMonotone(iovs: seq<Iovec>, i: nat, j: nat)
    requires i <= j <= |iovs|
    ensures Prefix(iovs, i) <= Prefix(iovs, j)
  {
    if i < j {
      PrefixMonotone(iovs, i, j - 1);
    }
  }

  /** The addresses `[a, a + n)`. */
  function Range(a: nat, n: nat): (s: seq<nat>)
    ensures |s| == n && forall i :: 0 <= i < n ==> s[i] == a + i
  {
    seq(n, i => a + i)
  }

  /** The addresses covered by a list of segments, in order. */
  function Flatten(segs: seq<Iovec>): seq<nat> {
    if segs == [] then [] else Flatten(segs[..|segs| - 1]) + Range(segs[|segs| - 1].start, segs[|segs| - 1].len)
  }

  lemma FlattenSnoc(segs: seq<Iovec>, g: Iovec)
    ensures Flatten(segs + [g]) == Flatten(segs) + Range(g.start, g.len)
  {
    assert (segs + [g])[..|segs|] == segs;
  }

  /** SPDK_CEIL_DIV. */
  function CeilDiv(x: nat, unit: Positive): nat { (x + unit - 1) / unit }

  /** One more full unit makes one more piece. */
  lemma CeilStep(x: nat, unit: Positive)
    ensures x > unit ==> CeilDiv(x, unit) == 1 + CeilDiv(x - unit, unit)
    ensures 0 < x <= unit ==> CeilDiv(x, unit) == 1
    ensures CeilDiv(0, unit) == 0
  {
    if x > unit {
      var q, r := (x - 1) / unit, (x - 1) % unit;
      assert x - 1 == q * unit + r;
      assert x + unit - 1 == (q + 1) * unit + r;
      DivModUnique(x + unit - 1, unit, q + 1, r);
    } else if x > 0 {
      DivModUnique(x + unit - 1, unit, 1, x - 1);
    }
    DivModUnique(unit - 1, unit, 0, unit - 1);
  }

  class SglTask {
    var iovs: seq<Iovec>
    var iovpos: nat
    var iovOffset: nat

    constructor ()
      ensures iovs == []
    {
      iovs, iovpos, iovOffset := [], 0, 0;
    }

    /** nvme_perf_allocate_iovs: SPDK_CEIL_DIV(length, unit) pieces that partition the buffer. */
    method AllocateIovs(buf: nat, length: nat, unit: Positive)
      modifies this`iovs
      ensures |iovs| == CeilDiv(length, unit) && Pieces(iovs, buf, length, unit)
    {
      hide Prefix, CeilDiv;
      var count := CeilDiv(length, unit);
      iovs := seq(count, _ => Iovec(0, 0));
      var left: nat, offset: nat, pos: nat := length, 0, 0;
      CeilStep(length, unit);
      EmptyPrefix(iovs);
      while left > 0
        invariant offset + left == length && pos <= |iovs| == count
        invariant count - pos == CeilDiv(left, unit)
        invariant Filled(iovs, pos, buf, offset, unit, left)
      {
        CeilStep(left, unit);
        FillOne(iovs, pos, buf, offset, unit, left);
        var len := if left <= unit then left else unit;
        iovs := iovs[pos := Iovec(buf + offset, len)];
        left, offset, pos := left - len, offset + len, pos + 1;
        CeilStep(left, unit);
      }
      CeilStep(0, unit);
      AllFilled(iovs, buf, length, unit);
    }

    /** The cursor stands `off` bytes into the list, inside a piece or at the very end. */
    ghost predicate At(off: nat)
      reads this
    {
      && iovpos <= |iovs|
      && off == Prefix(iovs, iovpos) + iovOffset
      && (iovpos < |iovs| ==> iovOffset < iovs[iovpos].len)
      && (iovpos == |iovs| ==> iovOffset == 0)
    }

    /** nvme_perf_reset_sgl. */
    method ResetSgl(sglOffset: nat)
      requires sglOffset <= Prefix(iovs, |iovs|)
      modifies this`iovpos, this`iovOffset
      ensures At(sglOffset)
    {
      iovOffset, iovpos := sglOffset, 0;
      while iovpos < |iovs|
        invariant iovpos <= |iovs| && sglOffset == Prefix(iovs, iovpos) + iovOffset
      {
        if iovOffset < iovs[iovpos].len {
          break;
        }
        iovOffset := iovOffset - iovs[iovpos].len;
        iovpos := iovpos + 1;
      }
    }

    /** nvme_perf_next_sge: the bytes from the cursor to the end of its piece. */
    method NextSge(ghost off: nat, ghost buf: nat, ghost length: nat, ghost unit: Positive)
      returns (address: nat, len: nat)
      requires At(off) && off < length && Pieces(iovs, buf, length, unit)
      modifies this`iovpos, this`iovOffset
      ensures address == buf + off && len > 0 && At(off + len) && off + len <= length
    {
      hide Prefix;
      var iov := iovs[iovpos];
      PrefixStep(iovs, iovpos);
      PrefixMonotone(iovs, iovpos + 1, |iovs|);
      address := iov.start + iovOffset;
      len := iov.len - iovOffset;
      iovpos := iovpos + 1;
      iovOffset := 0;
    }

    /** How the driver uses the pair: reset, then take segments to the end. Together they are exactly the bytes
        from `sglOffset` to the end of the buffer, in order. */
    method Walk(sglOffset: nat, ghost buf: nat, length: nat, ghost unit: Positive) returns (segs: seq<Iovec>)
      requires sglOffset <= length && Pieces(iovs, buf, length, unit)
      modifies this`iovpos, this`iovOffset
      ensures Flatten(segs) == Range(buf + sglOffset, length - sglOffset)
      ensures forall k :: 0 <= k < |segs| ==> segs[k].len > 0
    {
      hide Prefix;
      ResetSgl(sglOffset);
      segs := [];
      var off := sglOffset;
      while off < length
        invariant sglOffset <= off <= length && At(off)
        invariant Flatten(segs) == Range(buf + sglOffset, off - sglOffset)
        invariant forall k :: 0 <= k < |segs| ==> segs[k].len > 0
        decreases length - off
      {
        var address, len := NextSge(off, buf, length, unit);
        FlattenSnoc(segs, Iovec(address, len));
        assert Range(buf + sglOffset, off - sglOffset) + Range(address, len)
            == Range(buf + sglOffset, off + len - sglOffset);
        segs := segs + [Iovec(address, len)];
        off := off + len;
      }
    }
  }

  /** The first `pos` pieces of `iovs` are in place and cover `offset` bytes; `left` bytes remain. */
  ghost predicate Filled(iovs: seq<Iovec>, pos: nat, buf: nat, offset: nat, unit: Positive, left: nat) {
    && pos <= |iovs| && offset == Prefix(iovs, pos)
    && (forall k :: 0 <= k < pos ==> iovs[k].start == buf + Prefix(iovs, k) && 0 < iovs[k].len <= unit)
    && (forall k :: 0 <= k < pos ==> iovs[k].len == unit || (left == 0 && k == pos - 1))
  }

  lemma AllFilled(iovs: seq<Iovec>, buf: nat, length: nat, unit: Positive)
    requires Filled(iovs, |iovs|, buf, length, unit, 0)
    ensures Pieces(iovs, buf, length, unit)
  {
    hide Prefix;
  }

  lemma FillOne(iovs: seq<Iovec>, pos: nat, buf: nat, offset: nat, unit: Positive, left: nat)
    requires Filled(iovs, pos, buf, offset, unit, left) && pos < |iovs| && left > 0
    ensures var len := if left <= unit then left else unit;
      Filled(iovs[pos := Iovec(buf + offset, len)], pos + 1, buf, offset + len, unit, left - len)
  {
    hide Prefix;
    var next := iovs[pos := Iovec(buf + offset, if left <= unit then left else unit)];
    PrefixStep(next, pos);
    forall k | 0 <= k <= pos ensures Prefix(next, k) == Prefix(iovs, k) {
      PrefixExtends(next, iovs, k);
    }
  }
}
