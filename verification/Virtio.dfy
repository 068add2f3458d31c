/** Split virtqueue helpers: memory layout and 16-bit event suppression. */
module Virtio {
  import opened Arith
  import opened Bits

  const TWO16: nat := 0x1_0000
  const TWO32: nat := 0x1_0000_0000

  // ---- layout (VIRTIO 1.1, section 2.6.2) ----

  /** sizeof of a descriptor, of a 16-bit field and of a used element. */
  const DESC: nat := 16
  const WORD: nat := 2
  const USED_ELEM: nat := 8

  /** `(x + align - 1) & ~(align - 1)` on words of 64 bits, for align = 2^k. */
  function AlignUp(x: nat, k: nat): nat
    requires k <= 64
  {
    PowMonotone(k, 64);
    And((x + Pow2(k) - 1) % Pow2(64), Pow2(64) - Pow2(k))
  }

  lemma AlignUpSpec(x: nat, k: nat)
    requires k <= 64 && x + Pow2(k) - 1 < Pow2(64)
    ensures AlignUp(x, k) == RoundUp(x, Pow2(k))
    ensures x <= AlignUp(x, k) < x + Pow2(k) && OnBoundary(AlignUp(x, k), k)
  {
    hide Pow2, And;
    var a := Pow2(k);
    var y := x + a - 1;
    PowMonotone(k, 64);
    SmallMod(y, Pow2(64));
    AndClear(y, k, 64);
    assert y == (y / a) * a + y % a;
    RoundUpBounds(x, a);
  }

  /** `x` lies on a boundary of `2^k` bytes. */
  predicate OnBoundary(x: nat, k: nat) { x % Pow2(k) == 0 }

  /** The used ring of a queue of `num` entries at `p`. */
  function UsedOf(num: nat, p: nat, k: nat): nat
    requires k <= 64
  {
    AlignUp(p + DESC * num + 2 * WORD + num * WORD + WORD, k)
  }

  lemma UsedBehind(num: nat, p: nat, k: nat)
    requires k <= 64
    ensures UsedOf(num, p, k) == AlignUp(p + DESC * num + WORD * (3 + num), k)
  {
    hide AlignUp;
    assert p + DESC * num + 2 * WORD + num * WORD + WORD == p + DESC * num + WORD * (3 + num);
  }

  lemma LayoutOf(num: nat, p: nat, k: nat)
    requires k <= 64 && OnBoundary(p, k) && p + DESC * num + WORD * (3 + num) + Pow2(k) - 1 < Pow2(64)
    ensures var behind, used := p + DESC * num + WORD * (3 + num), UsedOf(num, p, k);
      && behind <= used < behind + Pow2(k) && OnBoundary(used, k)
      && used + WORD * 3 + USED_ELEM * num == p + VringBytes(num, k)
      && (VringSize(num, k) == VringBytes(num, k) <==> VringBytes(num, k) < TWO32)
      && (k >= 4 ==> p % 16 == 0 && (p + DESC * num) % 2 == 0 && used % 4 == 0)
  {
    hide Pow2, And, AlignUp, OnBoundary, RoundUp, VringSize, UsedOf;
    SizeTruncated(num, k);
    UsedBehind(num, p, k);
    var behind := p + DESC * num + WORD * (3 + num);
    AlignUpSpec(behind, k);
    SizeAddsUp(num, p, k);
    if k >= 4 {
      Aligned16(p, k);
      Aligned16(UsedOf(num, p, k), k);
      PartsAligned(p, num, UsedOf(num, p, k));
    }
  }

  class Vring {
    var num: nat
    var desc: nat
    var avail: nat
    var used: nat

    constructor ()
    {
      num, desc, avail, used := 0, 0, 0, 0;
    }

    function AvailRing(i: nat): nat
      reads this
    {
      avail + 2 * WORD + i * WORD
    }

    function UsedRing(i: nat): nat
      reads this
    {
      used + 2 * WORD + i * USED_ELEM
    }

    /** Address of vring_used_event, the slot behind the available ring. */
    function UsedEvent(): nat
      reads this
    {
      AvailRing(num)
    }

    /** Address of vring_avail_event, the slot behind the used ring. */
    function AvailEvent(): nat
      reads this
    {
      UsedRing(num)
    }

    /** vring_init: descriptors, then the available ring with its event slot, then, aligned, the used ring with its
        event slot. The parts do not overlap, each has its alignment, and vring_size is the room they take if and
        only if that is less than 2^32 bytes. */
    method Init(num: nat, p: nat, k: nat)
      requires k <= 64 && OnBoundary(p, k) && p + DESC * num + WORD * (3 + num) + Pow2(k) - 1 < Pow2(64)
      modifies this
      ensures this.num == num && desc == p && avail == desc + DESC * num
      ensures UsedEvent() + WORD <= used < UsedEvent() + WORD + Pow2(k) && OnBoundary(used, k)
      ensures k >= 4 ==> desc % 16 == 0 && avail % 2 == 0 && used % 4 == 0
      ensures AvailEvent() + WORD == p + VringBytes(num, k)
      ensures AvailEvent() + WORD == p + VringSize(num, k) <==> VringBytes(num, k) < TWO32
    {
      hide Pow2, And, AlignUp, OnBoundary, VringBytes, VringSize;
      this.num := num;
      desc := p;
      avail := p + DESC * num;
      used := AlignUp(avail + 2 * WORD + num * WORD + WORD, k);
      LayoutOf(num, p, k);
    }
  }

  /** The bytes a queue takes from its descriptors to its last event slot. */
  function VringBytes(num: nat, k: nat): nat
    requires k <= 64
  {
    AlignUp(DESC * num + WORD * (3 + num), k) + WORD * 3 + USED_ELEM * num
  }

  /** vring_size, whose result is an unsigned 32-bit integer. */
  function VringSize(num: nat, k: nat): nat
    requires k <= 64
  {
    VringBytes(num, k) % TWO32
  }

  lemma SizeTruncated(num: nat, k: nat)
    requires k <= 64
    ensures VringSize(num, k) == VringBytes(num, k) <==> VringBytes(num, k) < TWO32
  {
    hide VringBytes;
    if VringBytes(num, k) < TWO32 {
      SmallMod(VringBytes(num, k), TWO32);
    }
  }

  /** Rounding up commutes with an aligned base. */
  lemma SizeAddsUp(num: nat, p: nat, k: nat)
    requires k <= 64 && OnBoundary(p, k) && p + DESC * num + WORD * (3 + num) + Pow2(k) - 1 < Pow2(64)
    ensures AlignUp(p + DESC * num + WORD * (3 + num), k) == p + AlignUp(DESC * num + WORD * (3 + num), k)
  {
    hide Pow2, And, AlignUp, RoundUp;
    var x, a := DESC * num + WORD * (3 + num), Pow2(k);
    AlignUpSpec(p + x, k);
    AlignUpSpec(x, k);
    RoundUpBounds(x, a);
    RoundUpBounds(p + x, a);
    MultiplesAdd(p, RoundUp(x, a), a);
    RoundUpLeast(p + x, a, p + RoundUp(x, a));
    MultiplesAdd(RoundUp(p + x, a), p, a);
    RoundUpLeast(x, a, RoundUp(p + x, a) - p);
  }

  lemma PartsAligned(p: nat, num: nat, used: nat)
    requires p % 16 == 0 && used % 16 == 0
    ensures (p + DESC * num) % 2 == 0 && used % 4 == 0
  {
    var q, r := p / 16, used / 16;
    DivModUnique(p + DESC * num, 2, 8 * q + 8 * num, 0);
    DivModUnique(used, 4, 4 * r, 0);
  }

  lemma Aligned16(x: nat, k: nat)
    requires k >= 4 && OnBoundary(x, k)
    ensures x % 16 == 0
  {
    PowAdd(k - 4, 4);
    assert Pow2(4) == 16;
    var q := x / Pow2(k);
    assert x == q * Pow2(k);
    MulAssoc(q, Pow2(k - 4), 16);
    MultipleMod(q * Pow2(k - 4), 16);
  }

  // ---- event suppression (VIRTIO 1.1, sections 2.6.7 and 2.6.10) ----

  /** A 16-bit unsigned truncation. */
  function U16(x: int): nat { x % TWO16 }

  /** vring_need_event. */
  predicate NeedEvent(event: nat, newIdx: nat, oldIdx: nat) {
    U16(newIdx - event - 1) < U16(newIdx - oldIdx)
  }

  /** Truncating the operands does not change a truncated difference. */
  lemma Truncate(x: int, y: int, z: int)
    ensures U16(U16(x) - U16(y) - z) == U16(x - y - z)
  {
    var q, q' := x / TWO16, y / TWO16;
    assert x == q * TWO16 + U16(x) && y == q' * TWO16 + U16(y);
    var d := U16(x) - U16(y) - z;
    assert d == (d / TWO16) * TWO16 + d % TWO16;
    DivModUnique(x - y - z, TWO16, d / TWO16 + (q - q'), d % TWO16);
  }

  /** With free-running counters that moved by less than 2^16 since the event index was set, the 16-bit test is true
      exactly when the event index lies in the batch `[oldIdx, newIdx)`. */
  lemma NeedEventIffCrossed(event: nat, newIdx: nat, oldIdx: nat)
    requires oldIdx <= newIdx < oldIdx + TWO16
    requires newIdx - TWO16 <= event < oldIdx + TWO16
    ensures NeedEvent(U16(event), U16(newIdx), U16(oldIdx)) <==> oldIdx <= event < newIdx
  {
    Truncate(newIdx, oldIdx, 0);
    Truncate(newIdx, event, 1);
    var d, n := newIdx - event - 1, newIdx - oldIdx;
    DivModUnique(n, TWO16, 0, n);
    if d < 0 {
      DivModUnique(d, TWO16, -1, d + TWO16);
    } else {
      DivModUnique(d, TWO16, 0, d);
    }
  }

  /** How many of the batches between successive indices raise an event for a fixed event index. */
  function Fired(event: nat, idxs: seq<nat>): nat {
    if |idxs| < 2 then 0
    else (if NeedEvent(U16(event), U16(idxs[1]), U16(idxs[0])) then 1 else 0) + Fired(event, idxs[1..])
  }

  ghost predicate Advancing(idxs: seq<nat>) {
    forall i, j :: 0 <= i < j < |idxs| ==> idxs[i] <= idxs[j]
  }

  /** Over any division of an advance below 2^16 into batches exactly one batch fires if the event index is crossed,
      and none otherwise. */
  lemma {:induction false} ExactlyOneFires(event: nat, idxs: seq<nat>)
    requires |idxs| > 0 && Advancing(idxs)
    requires idxs[|idxs| - 1] - TWO16 <= event < idxs[0] + TWO16 && idxs[|idxs| - 1] < idxs[0] + TWO16
    ensures Fired(event, idxs) == if idxs[0] <= event < idxs[|idxs| - 1] then 1 else 0
    decreases |idxs|
  {
    hide NeedEvent;
    if |idxs| >= 2 {
      NeedEventIffCrossed(event, idxs[1], idxs[0]);
      ExactlyOneFires(event, idxs[1..]);
    }
  }
}
