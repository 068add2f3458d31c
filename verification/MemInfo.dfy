/**
 dpdk_mem_info: busy heap elements are associated with the memzones they contain by removing them from the list
 that is being iterated, and memzones are associated with mempools by name.
 */
module MemInfo {
  import opened Basics

  datatype Zone = Zone(name: string, size: nat, address: nat)

  datatype Element = Element(addr: nat, size: nat)

  /** A moved element with the memzone that check_memzone_compatibility stored in it. */
  datatype Placed = Placed(element: Element, zone: Zone)

  datatype Heap = Heap(mallocs: seq<Element>, memzones: seq<Placed>)

  predicate Fits(e: Element, z: Zone) {
    e.addr <= z.address && e.addr + e.size >= z.address + z.size
  }

  // ---- one pass over one heap for one zone ----

  /** What stays: after a removal the iteration steps over the element that moved into its place. */
  function Kept(l: seq<Element>, z: Zone): seq<Element> {
    if l == [] then []
    else if Fits(l[0], z) then l[1..Min(2, |l|)] + Kept(l[Min(2, |l|)..], z)
    else [l[0]] + Kept(l[1..], z)
  }

  function Moved(l: seq<Element>, z: Zone): seq<Placed> {
    if l == [] then []
    else if Fits(l[0], z) then [Placed(l[0], z)] + Moved(l[Min(2, |l|)..], z)
    else Moved(l[1..], z)
  }

  lemma Unfold(l: seq<Element>, z: Zone)
    requires l != []
    ensures Fits(l[0], z) ==> Kept(l, z) == l[1..Min(2, |l|)] + Kept(l[Min(2, |l|)..], z)
    ensures Fits(l[0], z) ==> Moved(l, z) == [Placed(l[0], z)] + Moved(l[Min(2, |l|)..], z)
    ensures !Fits(l[0], z) ==> Kept(l, z) == [l[0]] + Kept(l[1..], z) && Moved(l, z) == Moved(l[1..], z)
  {
  }

  lemma OneStep(done: seq<Element>, memzones: seq<Placed>, rest: seq<Element>, z: Zone)
    requires rest != []
    ensures var n := if Fits(rest[0], z) then Min(2, |rest|) else 1;
      var keep := if Fits(rest[0], z) then rest[1..n] else [rest[0]];
      var move := if Fits(rest[0], z) then [Placed(rest[0], z)] else [];
      && done + Kept(rest, z) == (done + keep) + Kept(rest[n..], z)
      && memzones + Moved(rest, z) == (memzones + move) + Moved(rest[n..], z)
  {
    hide Kept, Moved;
    Unfold(rest, z);
  }

  /** The inner loop: `remove` shifts the rest of the list under the running index. */
  method AssociateOne(h: Heap, z: Zone) returns (h': Heap)
    ensures h' == Heap(Kept(h.mallocs, z), h.memzones + Moved(h.mallocs, z))
  {
    var mallocs, memzones, i := h.mallocs, h.memzones, 0;
    ghost var done, rest := [], mallocs;
    hide Kept, Moved;
    EmptyPass(z);
    assert [] + Kept(mallocs, z) == Kept(mallocs, z);
    while i < |mallocs|
      invariant 0 <= i && mallocs == done + rest && (i == |done| || (rest == [] && i == |done| + 1))
      invariant Kept(h.mallocs, z) == done + Kept(rest, z)
      invariant h.memzones + Moved(h.mallocs, z) == memzones + Moved(rest, z)
      decreases |mallocs| - i
    {
      OneStep(done, memzones, rest, z);
      ghost var n := if Fits(rest[0], z) then Min(2, |rest|) else 1;
      ghost var keep := if Fits(rest[0], z) then rest[1..n] else [rest[0]];
      var e := mallocs[i];
      if Fits(e, z) {
        memzones := memzones + [Placed(e, z)];
        mallocs := mallocs[..i] + mallocs[i + 1..];
      }
      done, rest := done + keep, rest[n..];
      i := i + 1;
    }
    h' := Heap(mallocs, memzones);
  }

  // ---- all zones, all heaps ----

  function AfterZones(h: Heap, zones: seq<Zone>, k: nat): Heap
    requires k <= |zones|
  {
    if k == 0 then h
    else
      var g := AfterZones(h, zones, k - 1);
      Heap(Kept(g.mallocs, zones[k - 1]), g.memzones + Moved(g.mallocs, zones[k - 1]))
  }

  class Memory {
    var heaps: seq<Heap>
    var memzones: seq<Zone>

    constructor (heaps: seq<Heap>, memzones: seq<Zone>)
      ensures this.heaps == heaps && this.memzones == memzones
    {
      this.heaps, this.memzones := heaps, memzones;
    }

    /** associate_heap_elements_and_memzones. */
    method AssociateHeaps()
      modifies this`heaps
      ensures |heaps| == |old(heaps)|
      ensures forall i :: 0 <= i < |heaps| ==> heaps[i] == AfterZones(old(heaps)[i], memzones, |memzones|)
    {
      for k := 0 to |memzones|
        invariant |heaps| == |old(heaps)|
        invariant forall i :: 0 <= i < |heaps| ==> heaps[i] == AfterZones(old(heaps)[i], memzones, k)
      {
        for j := 0 to |heaps|
          invariant |heaps| == |old(heaps)|
          invariant forall i :: 0 <= i < |heaps| ==>
                      heaps[i] == AfterZones(old(heaps)[i], memzones, if i < j then k + 1 else k)
        {
          var h := AssociateOne(heaps[j], memzones[k]);
          heaps := heaps[j := h];
        }
      }
    }
  }

  // ---- conservation ----

  function Elements(ps: seq<Placed>): seq<Element> {
    if ps == [] then [] else [ps[0].element] + Elements(ps[1..])
  }

  lemma {:induction false} ElementsConcat(a: seq<Placed>, b: seq<Placed>)
    ensures Elements(a + b) == Elements(a) + Elements(b)
  {
    if a == [] {
      assert a + b == b;
    } else {
      assert (a + b)[1..] == a[1..] + b;
      ElementsConcat(a[1..], b);
    }
  }

  /** A pass loses and duplicates nothing. */
  lemma {:induction false} PassConserves(l: seq<Element>, z: Zone)
    ensures multiset(Kept(l, z)) + multiset(Elements(Moved(l, z))) == multiset(l)
    decreases |l|
  {
    if l == [] {
    } else if Fits(l[0], z) {
      PassConserves(l[Min(2, |l|)..], z);
      HitConserves(l, z);
    } else {
      PassConserves(l[1..], z);
      MissConserves(l, z);
    }
  }

  lemma HitConserves(l: seq<Element>, z: Zone)
    requires l != [] && Fits(l[0], z)
    requires var r := l[Min(2, |l|)..]; multiset(Kept(r, z)) + multiset(Elements(Moved(r, z))) == multiset(r)
    ensures multiset(Kept(l, z)) + multiset(Elements(Moved(l, z))) == multiset(l)
  {
    hide Kept, Moved, Elements;
    Unfold(l, z);
    var n := Min(2, |l|);
    var r := l[n..];
    ElementsConcat([Placed(l[0], z)], Moved(r, z));
    SingleElement(Placed(l[0], z));
    Together([l[0]], l[1..n], Kept(r, z), Elements(Moved(r, z)), r);
    assert l == [l[0]] + l[1..n] + r;
  }

  lemma MissConserves(l: seq<Element>, z: Zone)
    requires l != [] && !Fits(l[0], z)
    requires multiset(Kept(l[1..], z)) + multiset(Elements(Moved(l[1..], z))) == multiset(l[1..])
    ensures multiset(Kept(l, z)) + multiset(Elements(Moved(l, z))) == multiset(l)
  {
    hide Kept, Moved, Elements;
    Unfold(l, z);
    assert l == [l[0]] + l[1..];
  }

  lemma SingleElement(p: Placed)
    ensures Elements([p]) == [p.element]
  {
  }

  lemma Together(a: seq<Element>, b: seq<Element>, ks: seq<Element>, es: seq<Element>, rest: seq<Element>)
    requires multiset(ks) + multiset(es) == multiset(rest)
    ensures multiset(b + ks) + multiset(a + es) == multiset(a + b + rest)
  {
    assert multiset(a + b + rest) == multiset(a) + multiset(b) + multiset(rest);
  }

  function Busy(h: Heap): multiset<Element> { multiset(h.mallocs) + multiset(Elements(h.memzones)) }

  lemma OneZoneConserves(g: Heap, z: Zone)
    ensures Busy(Heap(Kept(g.mallocs, z), g.memzones + Moved(g.mallocs, z))) == Busy(g)
  {
    hide Kept, Moved, Elements;
    var ks, ms := Kept(g.mallocs, z), Moved(g.mallocs, z);
    PassConserves(g.mallocs, z);
    ElementsConcat(g.memzones, ms);
    Together(Elements(g.memzones), [], ks, Elements(ms), g.mallocs);
    assert [] + ks == ks && Elements(g.memzones) + [] == Elements(g.memzones);
  }

  /** Over all zones each heap's busy elements, and so their number and total size, are preserved. */
  lemma {:induction false} AssociationConserves(h: Heap, zones: seq<Zone>, k: nat)
    requires k <= |zones|
    ensures Busy(AfterZones(h, zones, k)) == Busy(h)
  {
    hide Kept, Moved, Elements, Busy;
    if k > 0 {
      AssociationConserves(h, zones, k - 1);
      OneZoneConserves(AfterZones(h, zones, k - 1), zones[k - 1]);
    }
  }

  // ---- completeness ----

  predicate Apart(a: Element, b: Element) { a.addr + a.size <= b.addr || b.addr + b.size <= a.addr }

  ghost predicate Disjoint(l: seq<Element>) {
    forall i, j :: 0 <= i < j < |l| ==> Apart(l[i], l[j])
  }

  /** A non-empty zone lies in at most one of two separate elements. */
  lemma OneHome(a: Element, b: Element, z: Zone)
    requires Apart(a, b) && z.size > 0
    ensures !(Fits(a, z) && Fits(b, z))
  {
  }

  /** What the pass should have done: move every element the zone lies in. */
  function Rest(l: seq<Element>, z: Zone): seq<Element> {
    if l == [] then [] else (if Fits(l[0], z) then [] else [l[0]]) + Rest(l[1..], z)
  }

  lemma {:induction false} NoneFit(l: seq<Element>, z: Zone)
    requires forall i :: 0 <= i < |l| ==> !Fits(l[i], z)
    ensures Kept(l, z) == l && Rest(l, z) == l && Moved(l, z) == []
  {
    if l != [] {
      NoneFit(l[1..], z);
    }
  }

  lemma {:induction false} RestKeeps(l: seq<Element>, z: Zone)
    ensures forall e :: e in Rest(l, z) <==> e in l && !Fits(e, z)
    ensures Disjoint(l) ==> Disjoint(Rest(l, z))
  {
    if l != [] {
      RestKeeps(l[1..], z);
      assert forall e :: e in l <==> e == l[0] || e in l[1..];
      var r := Rest(l[1..], z);
      if Disjoint(l) && !Fits(l[0], z) {
        forall j | 0 <= j < |r| ensures Apart(l[0], r[j]) {
          assert r[j] in l[1..];
        }
      }
    }
  }

  /** No two neighbours in the list both contain the zone. */
  ghost predicate NoTwins(l: seq<Element>, z: Zone) {
    forall i :: 0 <= i < |l| - 1 && Fits(l[i], z) ==> !Fits(l[i + 1], z)
  }

  lemma NoTwinsTail(l: seq<Element>, z: Zone)
    requires |l| > 1 && !Fits(l[1], z)
    ensures NoTwins(l, z) <==> NoTwins(l[2..], z)
  {
    assert forall i :: 2 <= i < |l| ==> l[i] == l[2..][i - 2];
    assert forall i :: 0 <= i < |l[2..]| ==> l[2..][i] == l[i + 2];
  }

  /** The pass moves everything it should if and only if no two neighbours in the list contain the zone. */
  lemma {:induction false} PassCompleteIff(l: seq<Element>, z: Zone)
    ensures Kept(l, z) == Rest(l, z) <==> NoTwins(l, z)
    decreases |l|
  {
    hide Kept, Rest, Fits;
    EmptyPass(z);
    if l != [] {
      Unfold(l, z);
      UnfoldRest(l, z);
      if !Fits(l[0], z) {
        PassCompleteIff(l[1..], z);
        assert ([l[0]] + Kept(l[1..], z))[1..] == Kept(l[1..], z);
        assert ([l[0]] + Rest(l[1..], z))[1..] == Rest(l[1..], z);
        assert forall i :: 0 < i < |l| ==> l[i] == l[1..][i - 1];
        assert NoTwins(l, z) <==> NoTwins(l[1..], z);
      } else if |l| > 1 {
        UnfoldRest(l[1..], z);
        assert l[1..][1..] == l[2..] && l[1..2] == [l[1]];
        if Fits(l[1], z) {
          RestKeeps(l, z);
          assert l[1] in Kept(l, z) && l[1] !in Rest(l, z);
        } else {
          PassCompleteIff(l[2..], z);
          assert ([l[1]] + Kept(l[2..], z))[1..] == Kept(l[2..], z);
          assert ([l[1]] + Rest(l[2..], z))[1..] == Rest(l[2..], z);
          NoTwinsTail(l, z);
        }
      }
    }
  }

  lemma EmptyPass(z: Zone)
    ensures Kept([], z) == [] && Rest([], z) == [] && Moved([], z) == []
  {
  }

  lemma UnfoldRest(l: seq<Element>, z: Zone)
    requires l != []
    ensures Rest(l, z) == (if Fits(l[0], z) then [] else [l[0]]) + Rest(l[1..], z)
  {
  }

  /** On separate elements and a non-empty zone, stepping over an element never matters: the pass keeps exactly the
      elements that do not contain the zone. */
  lemma {:induction false} PassIsComplete(l: seq<Element>, z: Zone)
    requires Disjoint(l) && z.size > 0
    ensures Kept(l, z) == Rest(l, z)
    ensures forall p :: p in Moved(l, z) ==> p.zone == z && Fits(p.element, z)
    decreases |l|
  {
    if l == [] {
    } else if Fits(l[0], z) {
      FirstFits(l, z);
    } else {
      hide Kept, Moved, Rest, Fits;
      Unfold(l, z);
      UnfoldRest(l, z);
      PassIsComplete(l[1..], z);
    }
  }

  /** If the first element holds the zone, no other one does, so the one stepped over does not matter. */
  lemma FirstFits(l: seq<Element>, z: Zone)
    requires Disjoint(l) && z.size > 0 && l != [] && Fits(l[0], z)
    ensures Kept(l, z) == l[1..] == Rest(l, z) && Moved(l, z) == [Placed(l[0], z)]
  {
    hide Kept, Moved, Rest;
    forall i | 0 < i < |l| ensures !Fits(l[i], z) {
      OneHome(l[0], l[i], z);
    }
    var n := Min(2, |l|);
    NoneFit(l[1..], z);
    NoneFit(l[n..], z);
    Unfold(l, z);
    UnfoldRest(l, z);
    assert l[1..] == l[1..n] + l[n..];
  }

  /** Every moved element has a zone it contains among `zones`, and no element left behind contains any of them. */
  ghost predicate Sorted(h: Heap, zones: seq<Zone>) {
    && Disjoint(h.mallocs)
    && (forall p :: p in h.memzones ==> Fits(p.element, p.zone) && p.zone in zones)
    && (forall e, z :: e in h.mallocs && z in zones ==> !Fits(e, z))
  }

  lemma SortOneMore(h: Heap, zones: seq<Zone>, z: Zone)
    requires Sorted(h, zones) && z.size > 0
    ensures Sorted(Heap(Kept(h.mallocs, z), h.memzones + Moved(h.mallocs, z)), zones + [z])
  {
    hide Kept, Moved, Fits, Rest;
    PassIsComplete(h.mallocs, z);
    RestKeeps(h.mallocs, z);
    assert forall y :: y in zones + [z] <==> y in zones || y == z;
    assert forall p :: p in h.memzones + Moved(h.mallocs, z) <==> p in h.memzones || p in Moved(h.mallocs, z);
  }

  /** After all zones the moved elements are exactly those that contain some zone, each with a zone it contains,
      and the elements left behind contain none. */
  lemma {:induction false} AssociationIsComplete(h: Heap, zones: seq<Zone>, k: nat)
    requires k <= |zones| && Disjoint(h.mallocs) && h.memzones == []
    requires forall i :: 0 <= i < |zones| ==> zones[i].size > 0
    ensures Sorted(AfterZones(h, zones, k), zones[..k])
  {
    if k > 0 {
      hide Sorted, Kept, Moved, Disjoint;
      AssociationIsComplete(h, zones, k - 1);
      SortOneMore(AfterZones(h, zones, k - 1), zones[..k - 1], zones[k - 1]);
      assert zones[..k] == zones[..k - 1] + [zones[k - 1]];
    }
  }

  /** An empty zone on the border of two elements fits both, and the second one is stepped over. */
  lemma EmptyZoneMissesOne(addr: nat, n: nat, m: nat, name: string)
    ensures var l, z := [Element(addr, n), Element(addr + n, m)], Zone(name, 0, addr + n);
      && Disjoint(l) && Fits(l[0], z) && Fits(l[1], z)
      && Kept(l, z) == [l[1]] && Moved(l, z) == [Placed(l[0], z)]
  {
    var l, z := [Element(addr, n), Element(addr + n, m)], Zone(name, 0, addr + n);
    assert Kept(l[2..], z) == [];
  }
}
