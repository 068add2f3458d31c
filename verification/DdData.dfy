/**
 What every step of the copy engine keeps about the bytes: where the chunks lie, what the buffers
 hold, and which output bytes already carry their input value.
 */
module DdData {
  import opened Basics
  import opened Arith
  import opened DdModel

  /** The whole output blocks that slot `io` reads or writes. */
  function Whole(c: Config, io: Io): nat { RoundUp(io.length, c.outBlock) }

  ghost predicate PosOk(c: Config, pos: nat) {
    && c.Start() <= pos <= c.End()
    && (c.Aligned(pos - c.Start()) || pos == c.End())
    && (pos == c.End() > c.Start() ==> c.Copied(c.End() - 1))
  }

  ghost predicate ChunkOk(c: Config, pos: nat, io: Io) {
    && c.Start() <= io.offset && 0 < io.length && io.offset + io.length <= pos
    && c.Aligned(io.offset - c.Start())
    && (c.Aligned(io.length) || io.offset + io.length == c.End())
    && (forall p: nat :: io.offset <= p < io.offset + io.length ==> c.Copied(p))
  }

  /** Output byte of input byte `p` has its final value and, if it was copied, is inside the file. */
  ghost predicate Done(c: Config, output: seq<Byte>, size: nat, p: nat) {
    && 0 <= c.At(p) < |output| && p < |c.input|
    && output[c.At(p)] == c.input[p]
    && (c.Copied(p) ==> c.At(p) < size)
  }

  ghost predicate TailOk(c: Config, io: Io) {
    forall k :: io.length <= k < Whole(c, io) && k < |io.buf| && 0 <= c.At(io.offset) + k < |c.output0| ==>
      io.buf[k] == c.output0[c.At(io.offset) + k]
  }

  ghost predicate FrontOk(c: Config, io: Io) {
    forall k :: 0 <= k < io.length && k < |io.buf| && io.offset + k < |c.input| ==>
      io.buf[k] == c.input[io.offset + k]
  }

  ghost predicate SlotOk(c: Config, pos: nat, output: seq<Byte>, size: nat, io: Io) {
    && |io.buf| == c.unit && io.length <= c.unit
    && (io.Active() ==> ChunkOk(c, pos, io))
    && (io.stage.Populating? && io.applied ==> TailOk(c, io))
    && (io.stage.Reading? || io.stage.Writing? ==> TailOk(c, io))
    && (io.stage.Reading? && io.applied ==> FrontOk(c, io))
    && (io.stage.Writing? ==> FrontOk(c, io))
    && (io.stage.Writing? && io.applied ==>
          forall p: nat :: io.offset <= p < io.offset + io.length ==> Done(c, output, size, p))
  }

  ghost predicate SlotsOk(c: Config, s: State) {
    forall i :: 0 <= i < |s.ios| ==> SlotOk(c, s.pos, s.output, s.size, s.ios[i])
  }

  ghost predicate Apart(a: Io, b: Io) {
    a.Active() && b.Active() ==> a.offset + a.length <= b.offset || b.offset + b.length <= a.offset
  }

  ghost predicate Separate(ios: seq<Io>) {
    forall i, j :: 0 <= i < |ios| && 0 <= j < |ios| && i != j ==> Apart(ios[i], ios[j])
  }

  /** Nothing outside the target region ever differs from what the output held before. */
  ghost predicate Outside(c: Config, output: seq<Byte>) {
    && |output| == |c.output0|
    && (forall q :: 0 <= q < |output| && !(c.WriteStart() <= q < c.WriteStart() + c.copySize) ==>
          output[q] == c.output0[q])
  }

  /** Inside the region every byte is either still the old one or already the input's. */
  ghost predicate Mixed(c: Config, output: seq<Byte>) {
    && |output| == |c.output0|
    && (forall p: nat :: c.Start() <= p < c.End() && 0 <= c.At(p) < |output| && p < |c.input| ==>
          output[c.At(p)] == c.input[p] || output[c.At(p)] == c.output0[c.At(p)])
  }

  ghost predicate Untouched(c: Config, pos: nat, output: seq<Byte>) {
    && |output| == |c.output0|
    && (forall p: nat :: pos <= p < c.End() && 0 <= c.At(p) < |output| ==>
          output[c.At(p)] == c.output0[c.At(p)])
  }

  ghost predicate Held(ios: seq<Io>, p: nat) {
    exists i :: 0 <= i < |ios| && ios[i].Holds(p)
  }

  /** Every byte passed by `pos` is finished or belongs to a slot. */
  ghost predicate Covered(c: Config, s: State) {
    forall p: nat :: c.Start() <= p < s.pos ==> Done(c, s.output, s.size, p) || Held(s.ios, p)
  }

  /** Dense mode reuses the length a slot was given at start-up, so it must still be a full unit. */
  ghost predicate LengthsOk(c: Config, s: State) {
    c.mode.Dense? ==> forall i :: 0 <= i < |s.ios| ==> s.ios[i].length == c.unit || s.pos == c.End()
  }

  ghost predicate DataInv(c: Config, s: State) {
    && |s.ios| == c.depth
    && PosOk(c, s.pos)
    && SlotsOk(c, s)
    && Separate(s.ios)
    && Outside(c, s.output)
    && Mixed(c, s.output)
    && Untouched(c, s.pos, s.output)
    && (!s.Halted() ==> Covered(c, s) && LengthsOk(c, s))
  }

  // ---- changes to one slot ----

  /** A slot moves on with its chunk, or lets go of it: finished, or because the job is being abandoned. */
  lemma KeepSlot(c: Config, s: State, t: State, i: nat)
    requires DataInv(c, s) && i < |s.ios|
    requires t.pos == s.pos && t.output == s.output && t.size == s.size
    requires |t.ios| == |s.ios| && t.ios == s.ios[i := t.ios[i]]
    requires SlotOk(c, t.pos, t.output, t.size, t.ios[i])
    requires t.ios[i].Active() ==>
               s.ios[i].Active() && t.ios[i].offset == s.ios[i].offset && t.ios[i].length == s.ios[i].length
    requires s.Halted() ==> t.Halted()
    requires t.Halted() || !c.mode.Dense? || t.ios[i].length == s.ios[i].length || t.pos == c.End()
    requires !t.Halted() ==>
               forall p: nat :: s.ios[i].Holds(p) ==> t.ios[i].Holds(p) || Done(c, s.output, s.size, p)
    ensures DataInv(c, t)
  {
    hide RoundUp, Config.Aligned, Config.Start, Config.WriteStart, Config.Copied, ChunkOk, TailOk, FrontOk, PosOk;
    forall j | 0 <= j < |t.ios|
      ensures SlotOk(c, t.pos, t.output, t.size, t.ios[j])
    {
      if j != i { assert t.ios[j] == s.ios[j]; }
    }
    forall j, k | 0 <= j < |t.ios| && 0 <= k < |t.ios| && j != k
      ensures Apart(t.ios[j], t.ios[k])
    {
      assert Apart(s.ios[j], s.ios[k]);
    }
    if !t.Halted() {
      forall p: nat | c.Start() <= p < t.pos
        ensures Done(c, t.output, t.size, p) || Held(t.ios, p)
      {
        if !Done(c, s.output, s.size, p) {
          var j :| 0 <= j < |s.ios| && s.ios[j].Holds(p);
          assert t.ios[j].Holds(p);
        }
      }
    }
  }

  /** A slot takes the chunk at `pos`. */
  lemma ClaimSlot(c: Config, s: State, t: State, i: nat)
    requires DataInv(c, s) && i < |s.ios| && !s.ios[i].Active()
    requires |t.ios| == |s.ios| && t.ios == s.ios[i := t.ios[i]]
    requires t.output == s.output && t.size == s.size
    requires t.ios[i].Active() ==> t.ios[i].offset == s.pos && s.pos + t.ios[i].length == t.pos
    requires s.pos <= t.pos && PosOk(c, t.pos)
    requires t.ios[i].Active() || t.Halted()
    requires t.Halted() || !c.mode.Dense? || t.ios[i].length == c.unit || t.pos == c.End()
    requires SlotOk(c, t.pos, t.output, t.size, t.ios[i])
    requires s.Halted() ==> t.Halted()
    ensures DataInv(c, t)
  {
    hide RoundUp, Config.Aligned, Config.Start, Config.WriteStart;
    forall j | 0 <= j < |t.ios|
      ensures SlotOk(c, t.pos, t.output, t.size, t.ios[j])
    {
      if j != i { assert t.ios[j] == s.ios[j]; }
    }
    forall j, k | 0 <= j < |t.ios| && 0 <= k < |t.ios| && j != k
      ensures Apart(t.ios[j], t.ios[k])
    {
      assert Apart(s.ios[j], s.ios[k]);
      if j != i { assert SlotOk(c, s.pos, s.output, s.size, s.ios[j]); }
      if k != i { assert SlotOk(c, s.pos, s.output, s.size, s.ios[k]); }
    }
    if !t.Halted() {
      forall p: nat | c.Start() <= p < t.pos
        ensures Done(c, t.output, t.size, p) || Held(t.ios, p)
      {
        if p >= s.pos {
          assert t.ios[i].Holds(p);
        } else if !Done(c, s.output, s.size, p) {
          var j :| 0 <= j < |s.ios| && s.ios[j].Holds(p);
          assert t.ios[j].Holds(p);
        }
      }
    }
  }

  /** Skipping a hole: its bytes are zero in the input and still zero in the output. */
  lemma SkipHole(c: Config, s: State, data: nat)
    requires c.Valid() && !c.mode.Dense? && DataInv(c, s)
    requires data == Find(c.hole, s.pos, false) && data < |c.hole|
    ensures DataInv(c, s.(pos := data))
  {
    hide RoundUp, Config.Aligned, Config.Start, Config.WriteStart;
    var t := s.(pos := data);
    if data > s.pos {
      assert c.hole[data - 1];
      assert c.Aligned(data - c.Start());
    }
    forall j | 0 <= j < |t.ios|
      ensures SlotOk(c, t.pos, t.output, t.size, t.ios[j])
    {
      assert SlotOk(c, s.pos, s.output, s.size, s.ios[j]);
    }
    if !t.Halted() {
      forall p: nat | c.Start() <= p < t.pos
        ensures Done(c, t.output, t.size, p) || Held(t.ios, p)
      {
        if p >= s.pos {
          assert c.hole[p];
          assert c.WriteStart() <= c.At(p) < c.WriteStart() + c.copySize;
          assert c.output0[c.At(p)] == 0;
        }
      }
    }
  }

  // ---- transfers ----

  /** A chunk's whole blocks lie inside the buffer and the device, and overhang only past the region. */
  lemma WholeFits(c: Config, pos: nat, io: Io)
    requires c.Valid() && PosOk(c, pos) && ChunkOk(c, pos, io) && io.length <= c.unit
    ensures io.length <= Whole(c, io) <= c.unit
    ensures 0 <= c.At(io.offset) && c.At(io.offset) + Whole(c, io) <= |c.output0|
    ensures Whole(c, io) > io.length ==> io.offset + io.length == c.End()
    ensures io.offset + io.length <= |c.input|
  {
    var b, n := c.outBlock, io.length;
    RoundUpBounds(n, b);
    RoundUpLeast(n, b, c.unit);
    MultipleOfMultiple(c.seek, c.unit, b);
    MultiplesAdd(c.WriteStart(), io.offset - c.Start(), b);
    MultiplesAdd(|c.output0|, c.At(io.offset), b);
    RoundUpLeast(n, b, |c.output0| - c.At(io.offset));
    if n % b == 0 {
      RoundUpFixed(n, b);
    }
  }

  lemma StoreOutside(c: Config, pos: nat, output: seq<Byte>, size: nat, io: Io, q: nat)
    requires c.Valid() && PosOk(c, pos) && Outside(c, output)
    requires io.stage.Writing? && SlotOk(c, pos, output, size, io)
    requires q < |output| && !(c.WriteStart() <= q < c.WriteStart() + c.copySize)
    ensures Store(output, c.At(io.offset), Whole(c, io), io.buf)[q] == c.output0[q]
  {
    hide RoundUp, Config.Aligned, Config.Start, Config.WriteStart, Config.Copied, Store, Done, FrontOk;
    WholeFits(c, pos, io);
    var at := c.At(io.offset);
    if at <= q < at + Whole(c, io) {
      var k := q - at;
      assert io.length <= k;
      assert io.buf[k] == c.output0[c.At(io.offset) + k];
    }
  }

  lemma StoreInside(c: Config, pos: nat, output: seq<Byte>, size: nat, io: Io, p: nat)
    requires c.Valid() && PosOk(c, pos) && |output| == |c.output0|
    requires io.stage.Writing? && SlotOk(c, pos, output, size, io) && c.Start() <= p < c.End()
    ensures 0 <= c.At(p) < |output|
    ensures Store(output, c.At(io.offset), Whole(c, io), io.buf)[c.At(p)]
            == if io.Holds(p) then c.input[p] else output[c.At(p)]
  {
    hide RoundUp, Config.Aligned, Config.Start, Config.WriteStart, Config.Copied, Store, Done, TailOk;
    WholeFits(c, pos, io);
    var k := c.At(p) - c.At(io.offset);
    if io.Holds(p) {
      assert io.buf[k] == c.input[io.offset + k];
    } else {
      assert !(io.length <= k < Whole(c, io));
    }
  }

  /** A finished write changes exactly the bytes of its chunk, to the input's bytes. */
  lemma StoreEffect(c: Config, pos: nat, output: seq<Byte>, size: nat, io: Io)
    requires c.Valid() && PosOk(c, pos) && Outside(c, output)
    requires io.stage.Writing? && SlotOk(c, pos, output, size, io)
    ensures var out := Store(output, c.At(io.offset), Whole(c, io), io.buf);
      && Outside(c, out)
      && (forall p: nat :: c.Start() <= p < c.End() ==>
            && 0 <= c.At(p) < |output|
            && out[c.At(p)] == if io.Holds(p) then c.input[p] else output[c.At(p)])
  {
    hide Whole, Config.Start, Config.WriteStart, Config.At, Store, SlotOk, PosOk;
    var out := Store(output, c.At(io.offset), Whole(c, io), io.buf);
    forall q | 0 <= q < |out| && !(c.WriteStart() <= q < c.WriteStart() + c.copySize)
      ensures out[q] == c.output0[q]
    {
      StoreOutside(c, pos, output, size, io, q);
    }
    forall p: nat | c.Start() <= p < c.End()
      ensures 0 <= c.At(p) < |output|
      ensures out[c.At(p)] == if io.Holds(p) then c.input[p] else output[c.At(p)]
    {
      StoreInside(c, pos, output, size, io, p);
    }
  }

  /** The output and its size change only towards the final contents. */
  ghost predicate Advances(c: Config, output: seq<Byte>, size: nat, output': seq<Byte>, size': nat) {
    && |output'| == |output| && size <= size'
    && (forall p: nat :: c.Start() <= p < c.End() && 0 <= c.At(p) < |output| && p < |c.input| ==>
          output'[c.At(p)] == output[c.At(p)] || output'[c.At(p)] == c.input[p])
  }

  lemma SlotAdvances(c: Config, pos: nat, output: seq<Byte>, size: nat, output': seq<Byte>, size': nat, io: Io)
    requires Advances(c, output, size, output', size') && pos <= c.End()
    requires SlotOk(c, pos, output, size, io)
    ensures SlotOk(c, pos, output', size', io)
  {
    hide RoundUp, Config.Aligned, Config.Start, Config.WriteStart, Config.Copied, TailOk, FrontOk;
    if io.stage.Writing? && io.applied {
      forall p: nat | io.offset <= p < io.offset + io.length
        ensures Done(c, output', size', p)
      {
        assert Done(c, output, size, p);
      }
    }
  }

  lemma AdvanceKeeps(c: Config, s: State, output: seq<Byte>, size: nat)
    requires DataInv(c, s) && Advances(c, s.output, s.size, output, size)
    requires Outside(c, output) && Untouched(c, s.pos, output)
    ensures DataInv(c, s.(output := output, size := size))
  {
    hide RoundUp, Config.Aligned, Config.Start, Config.WriteStart, Config.Copied, SlotOk;
    var t := s.(output := output, size := size);
    forall j | 0 <= j < |t.ios|
      ensures SlotOk(c, t.pos, t.output, t.size, t.ios[j])
    {
      SlotAdvances(c, s.pos, s.output, s.size, output, size, s.ios[j]);
    }
    forall p: nat | c.Start() <= p < t.pos && Done(c, s.output, s.size, p)
      ensures Done(c, t.output, t.size, p)
    {
    }
  }

  /** The write of slot `i` finishes its chunk and touches nothing else of the region. */
  lemma StoreAdvances(c: Config, s: State, i: nat)
    requires c.Valid() && DataInv(c, s) && i < |s.ios| && s.ios[i].stage.Writing?
    ensures var t := Transfer(c, s, i);
      && Advances(c, s.output, s.size, t.output, t.size) && Outside(c, t.output) && Untouched(c, s.pos, t.output)
      && (forall p: nat :: s.ios[i].Holds(p) ==> Done(c, t.output, t.size, p))
  {
    hide RoundUp, Config.Aligned, Config.Start, Config.WriteStart, Config.Copied, Store, TailOk, FrontOk;
    hide Separate, Mixed, Covered, LengthsOk;
    var io := s.ios[i];
    assert SlotOk(c, s.pos, s.output, s.size, io);
    WholeFits(c, s.pos, io);
    StoreEffect(c, s.pos, s.output, s.size, io);
  }

  lemma WriteTransferKeeps(c: Config, s: State, i: nat)
    requires c.Valid() && DataInv(c, s) && i < |s.ios| && s.ios[i].stage.Writing?
    ensures DataInv(c, Transfer(c, s, i))
  {
    hide DataInv, RoundUp, Config.Start, Config.WriteStart, Config.At, Store, Outside, Untouched, Advances, Done, SlotOk;
    var t := Transfer(c, s, i);
    var u := s.(output := t.output, size := t.size);
    StoreAdvances(c, s, i);
    AdvanceKeeps(c, s, t.output, t.size);
    AppliedOk(c, u, i);
    assert forall p: nat :: t.ios[i].Holds(p) <==> s.ios[i].Holds(p);
    KeepSlot(c, u, t, i);
  }

  lemma AppliedOk(c: Config, s: State, i: nat)
    requires DataInv(c, s) && i < |s.ios| && s.ios[i].stage.Writing?
    requires forall p: nat :: s.ios[i].Holds(p) ==> Done(c, s.output, s.size, p)
    ensures SlotOk(c, s.pos, s.output, s.size, s.ios[i].(applied := true))
  {
    hide Separate, Outside, Mixed, Untouched, Covered, LengthsOk, Done, RoundUp, Config.Start, Config.WriteStart, Config.At;
    var io := s.ios[i];
    assert SlotOk(c, s.pos, s.output, s.size, io);
    assert forall p: nat :: io.offset <= p < io.offset + io.length ==> io.Holds(p);
  }

  lemma ReadTransferKeeps(c: Config, s: State, i: nat)
    requires c.Valid() && DataInv(c, s) && i < |s.ios| && !s.ios[i].stage.Writing?
    ensures DataInv(c, Transfer(c, s, i))
  {
    hide RoundUp, Config.Aligned, Config.Start, Config.WriteStart, Config.Copied, Fetch, Store;
    var t := Transfer(c, s, i);
    var io, io' := s.ios[i], t.ios[i];
    assert SlotOk(c, s.pos, s.output, s.size, io);
    if io.Active() {
      WholeFits(c, s.pos, io);
      if io.stage.Populating? {
        var at := c.At(io.offset);
        forall k | io.length <= k < Whole(c, io)
          ensures io'.buf[k] == c.output0[at + k]
        {
          assert io'.buf[k] == s.output[at + k];
          assert !(c.WriteStart() <= at + k < c.WriteStart() + c.copySize);
        }
        assert TailOk(c, io');
      } else {
        assert forall k :: io.length <= k < Whole(c, io) ==> io'.buf[k] == io.buf[k];
        assert TailOk(c, io') && FrontOk(c, io');
      }
    }
    KeepSlot(c, s, t, i);
  }
}
