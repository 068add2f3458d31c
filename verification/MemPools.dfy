/** dpdk_mem_info: memzones are handed to the mempools whose name they contain, then taken off the common list. */
module MemPools {
  import opened Basics
  import opened MemInfo

  datatype Pool = Pool(name: string, zones: seq<Zone>)

  /** Python's `needle in hay` on strings. */
  predicate Within(needle: string, hay: string) {
    exists k :: 0 <= k <= |hay| && needle <= hay[k..]
  }

  function Matching(zones: seq<Zone>, name: string): seq<Zone> {
    if zones == [] then []
    else Matching(zones[..|zones| - 1], name)
         + (if Within(name, zones[|zones| - 1].name) then [zones[|zones| - 1]] else [])
  }

  /** The zones of `l` outside `gone`, in order. */
  function Without(l: seq<Zone>, gone: set<Zone>): seq<Zone> {
    if l == [] then []
    else if l[0] in gone then Without(l[1..], gone)
    else [l[0]] + Without(l[1..], gone)
  }

  /** Python's `list.remove`: the first occurrence goes. */
  function Remove(l: seq<Zone>, z: Zone): seq<Zone> {
    if l == [] then [] else if l[0] == z then l[1..] else [l[0]] + Remove(l[1..], z)
  }

  lemma {:induction false} WithoutMembers(l: seq<Zone>, gone: set<Zone>)
    ensures forall z :: z in Without(l, gone) <==> z in l && z !in gone
  {
    if l != [] {
      WithoutMembers(l[1..], gone);
      assert forall z :: z in l <==> z == l[0] || z in l[1..];
    }
  }

  lemma {:induction false} WithoutNone(l: seq<Zone>, gone: set<Zone>, gone': set<Zone>)
    requires forall z :: z in l ==> (z in gone <==> z in gone')
    ensures Without(l, gone) == Without(l, gone')
  {
    if l != [] {
      WithoutNone(l[1..], gone, gone');
    }
  }

  lemma {:induction false} WithoutNothing(l: seq<Zone>)
    ensures Without(l, {}) == l
  {
    if l != [] {
      WithoutNothing(l[1..]);
    }
  }

  /** Removing one zone from a list without duplicates. */
  lemma {:induction false} RemoveIsWithout(l: seq<Zone>, gone: set<Zone>, z: Zone)
    requires Distinct(l)
    ensures Remove(Without(l, gone), z) == Without(l, gone + {z})
  {
    if l != [] {
      var tail := l[1..];
      RemoveIsWithout(tail, gone, z);
      if l[0] != z {
        if l[0] !in gone {
          assert ([l[0]] + Without(tail, gone))[1..] == Without(tail, gone);
        }
      } else {
        assert forall k :: 0 <= k < |tail| ==> tail[k] == l[k + 1];
        WithoutNone(tail, gone, gone + {z});
        if l[0] !in gone {
          assert ([z] + Without(tail, gone))[1..] == Without(tail, gone);
        }
      }
    }
  }

  /** The zones some pool of the first `k` names claims. */
  ghost function Claimed(zones: seq<Zone>, names: seq<string>, k: nat): set<Zone>
    requires k <= |names|
  {
    set z | z in zones && exists i :: 0 <= i < k && Within(names[i], z.name)
  }

  lemma {:induction false} MatchingMembers(zones: seq<Zone>, name: string)
    ensures forall z :: z in Matching(zones, name) <==> z in zones && Within(name, z.name)
    decreases |zones|
  {
    if zones != [] {
      var b := zones[..|zones| - 1];
      MatchingMembers(b, name);
      assert zones == b + [zones[|zones| - 1]];
    }
  }

  function Names(pools: seq<Pool>): seq<string> { seq(|pools|, i requires 0 <= i < |pools| => pools[i].name) }

  class Report {
    var memzones: seq<Zone>
    var pools: seq<Pool>

    constructor (memzones: seq<Zone>, pools: seq<Pool>)
      ensures this.memzones == memzones && this.pools == pools
    {
      this.memzones, this.pools := memzones, pools;
    }

    /** associate_memzones_and_mempools: every pool gets the zones with its name, and the zones no pool wanted stay. */
    method Associate()
      requires Distinct(memzones) && forall i :: 0 <= i < |pools| ==> pools[i].zones == []
      modifies this
      ensures |pools| == |old(pools)|
      ensures forall i :: 0 <= i < |pools| ==>
                pools[i] == Pool(old(pools)[i].name, Matching(old(memzones), old(pools)[i].name))
      ensures memzones == Without(old(memzones), Claimed(old(memzones), Names(old(pools)), |old(pools)|))
    {
      hide Matching, Without, Claimed;
      HandOut();
      assert Names(pools) == Names(old(pools));
      TakeOff();
    }

    /** The first loop of associate_memzones_and_mempools. */
    method HandOut()
      requires forall i :: 0 <= i < |pools| ==> pools[i].zones == []
      modifies this`pools
      ensures |pools| == |old(pools)|
      ensures forall i :: 0 <= i < |pools| ==>
                pools[i] == Pool(old(pools)[i].name, Matching(memzones, old(pools)[i].name))
    {
      for i := 0 to |pools|
        invariant |pools| == |old(pools)|
        invariant forall j :: 0 <= j < i ==> pools[j] == Pool(old(pools)[j].name, Matching(memzones, old(pools)[j].name))
        invariant forall j :: i <= j < |pools| ==> pools[j] == old(pools)[j]
      {
        var zones: seq<Zone> := [];
        for j := 0 to |memzones|
          invariant zones == Matching(memzones[..j], pools[i].name)
        {
          assert memzones[..j + 1][..j] == memzones[..j];
          if Within(pools[i].name, memzones[j].name) {
            zones := zones + [memzones[j]];
          }
        }
        assert memzones[..|memzones|] == memzones;
        pools := pools[i := Pool(pools[i].name, zones)];
      }
    }

    /** The second loop: whatever a pool was handed leaves the common list. */
    method TakeOff()
      requires Distinct(memzones)
      requires forall i :: 0 <= i < |pools| ==> pools[i].zones == Matching(memzones, pools[i].name)
      modifies this`memzones
      ensures memzones == Without(old(memzones), Claimed(old(memzones), Names(pools), |pools|))
    {
      hide Matching, Within, Without;
      ghost var orig, names := memzones, Names(pools);
      WithoutNothing(orig);
      assert Claimed(orig, names, 0) == {};
      for i := 0 to |pools|
        invariant memzones == Without(orig, Claimed(orig, names, i))
      {
        TakeOffPool(pools[i].zones, orig, Claimed(orig, names, i));
        ClaimOneMore(orig, names, i);
      }
    }

    method TakeOffPool(zones: seq<Zone>, ghost orig: seq<Zone>, ghost gone: set<Zone>)
      requires Distinct(orig) && memzones == Without(orig, gone)
      modifies this`memzones
      ensures memzones == Without(orig, gone + set z | z in zones)
    {
      ghost var taken := gone;
      for j := 0 to |zones|
        invariant memzones == Without(orig, taken) && taken == gone + set z | z in zones[..j]
      {
        var zone := zones[j];
        WithoutMembers(orig, taken);
        RemoveIsWithout(orig, taken, zone);
        if zone in memzones {
          memzones := Remove(memzones, zone);
        } else {
          WithoutNone(orig, taken, taken + {zone});
        }
        taken := taken + {zone};
        assert zones[..j + 1] == zones[..j] + [zone];
      }
      assert zones[..|zones|] == zones;
    }
  }

  lemma ClaimOneMore(orig: seq<Zone>, names: seq<string>, i: nat)
    requires i < |names|
    ensures Without(orig, Claimed(orig, names, i) + set z | z in Matching(orig, names[i]))
            == Without(orig, Claimed(orig, names, i + 1))
  {
    hide Matching, Within, Without;
    MatchingMembers(orig, names[i]);
    assert Claimed(orig, names, i) + (set z | z in Matching(orig, names[i])) == Claimed(orig, names, i + 1);
  }

  // ---- sizes ----

  function TotalSize(zones: seq<Zone>): nat {
    if zones == [] then 0 else TotalSize(zones[..|zones| - 1]) + zones[|zones| - 1].size
  }

  function MatchCount(z: Zone, names: seq<string>): nat {
    if names == [] then 0 else MatchCount(z, names[1..]) + (if Within(names[0], z.name) then 1 else 0)
  }

  /** get_total_mempool_size after the zones were handed out. */
  function PoolSize(zones: seq<Zone>, names: seq<string>): nat {
    if names == [] then 0 else TotalSize(Matching(zones, names[0])) + PoolSize(zones, names[1..])
  }

  lemma TimesStep(m: nat, n: nat)
    ensures (m + 1) * n == m * n + n
    ensures m > 0 ==> m * n == (m - 1) * n + n
  {
  }

  lemma {:induction false} PoolSizeSnoc(zones: seq<Zone>, z: Zone, names: seq<string>)
    ensures PoolSize(zones + [z], names) == PoolSize(zones, names) + MatchCount(z, names) * z.size
    decreases |names|
  {
    hide Within, Matching, TotalSize;
    if names != [] {
      PoolSizeSnoc(zones, z, names[1..]);
      MatchingSnoc(zones, z, names[0]);
      TimesStep(MatchCount(z, names[1..]), z.size);
    }
  }

  lemma MatchingSnoc(zones: seq<Zone>, z: Zone, name: string)
    ensures TotalSize(Matching(zones + [z], name))
            == TotalSize(Matching(zones, name)) + (if Within(name, z.name) then z.size else 0)
  {
    hide Within;
    assert (zones + [z])[..|zones|] == zones;
    var m := Matching(zones, name);
    assert (m + [z])[..|m|] == m;
    assert m + [] == m;
  }

  lemma {:induction false} WithoutSnoc(l: seq<Zone>, z: Zone, gone: set<Zone>)
    ensures Without(l + [z], gone) == Without(l, gone) + (if z in gone then [] else [z])
  {
    if l == [] {
      assert [z][1..] == [];
    } else {
      assert (l + [z])[1..] == l[1..] + [z];
      WithoutSnoc(l[1..], z, gone);
    }
  }

  /** Bytes counted more than once because a zone went to several pools. */
  function Overcount(zones: seq<Zone>, names: seq<string>): nat {
    if zones == [] then 0
    else
      var z := zones[|zones| - 1];
      Overcount(zones[..|zones| - 1], names) + Extra(MatchCount(z, names), z.size)
  }

  /** All but one of `m` times `n`. */
  function Extra(m: nat, n: nat): nat { if m > 1 then (m - 1) * n else 0 }

  lemma ExtraFact(m: nat, n: nat)
    ensures m * n + (if m == 0 then n else 0) == n + Extra(m, n)
    ensures Extra(m, n) == 0 <==> m <= 1 || n == 0
  {
    if m > 0 {
      TimesStep(m - 1, n);
    }
  }

  /** `gone` are the zones that some pool claimed. */
  lemma {:induction false} SizesAddUp(zones: seq<Zone>, names: seq<string>, gone: set<Zone>)
    requires forall z :: z in zones ==> (z in gone <==> MatchCount(z, names) > 0)
    ensures TotalSize(Without(zones, gone)) + PoolSize(zones, names) == TotalSize(zones) + Overcount(zones, names)
    decreases |zones|
  {
    hide Within, MatchCount, PoolSize, Without, Extra;
    if zones == [] {
      NoPools(names);
      NothingLeft(gone);
    } else {
      var b, z := zones[..|zones| - 1], zones[|zones| - 1];
      assert zones == b + [z];
      assert z in zones;
      SizesAddUp(b, names, gone);
      PoolSizeSnoc(b, z, names);
      WithoutSnoc(b, z, gone);
      TotalSnoc(Without(b, gone), z);
      ExtraFact(MatchCount(z, names), z.size);
    }
  }

  lemma TotalSnoc(w: seq<Zone>, z: Zone)
    ensures TotalSize(w + [z]) == TotalSize(w) + z.size && w + [] == w
  {
    assert (w + [z])[..|w|] == w;
  }

  lemma NothingLeft(gone: set<Zone>)
    ensures Without([], gone) == []
  {
  }

  lemma {:induction false} NoPools(names: seq<string>)
    ensures PoolSize([], names) == 0
  {
    if names != [] {
      NoPools(names[1..]);
    }
  }

  lemma {:induction false} MatchCountPositive(z: Zone, names: seq<string>)
    ensures MatchCount(z, names) > 0 <==> exists i :: 0 <= i < |names| && Within(names[i], z.name)
  {
    hide Within;
    if names != [] {
      MatchCountPositive(z, names[1..]);
      assert forall i :: 0 < i < |names| ==> names[i] == names[1..][i - 1];
      assert forall i :: 0 <= i < |names[1..]| ==> names[1..][i] == names[i + 1];
    }
  }

  lemma {:induction false} OvercountZero(zones: seq<Zone>, names: seq<string>)
    ensures Overcount(zones, names) == 0 <==> forall z :: z in zones && z.size > 0 ==> MatchCount(z, names) <= 1
    decreases |zones|
  {
    hide MatchCount, Extra;
    if zones != [] {
      var b, z := zones[..|zones| - 1], zones[|zones| - 1];
      OvercountZero(b, names);
      assert zones == b + [z];
      assert forall y :: y in zones <==> y in b || y == z;
      ExtraFact(MatchCount(z, names), z.size);
    }
  }

  /** The sizes of all pools and remaining memzones add up to what the memzones had before if and only if no zone with
      a size matches two pools; the report is too large by exactly what was counted twice. */
  lemma SizesAddUpIff(zones: seq<Zone>, names: seq<string>)
    ensures var left := TotalSize(Without(zones, Claimed(zones, names, |names|)));
      && left + PoolSize(zones, names) == TotalSize(zones) + Overcount(zones, names)
      && (left + PoolSize(zones, names) == TotalSize(zones)
          <==> forall z :: z in zones && z.size > 0 ==> MatchCount(z, names) <= 1)
  {
    hide Within, MatchCount, Without, TotalSize, PoolSize, Overcount;
    forall z | z in zones ensures z in Claimed(zones, names, |names|) <==> MatchCount(z, names) > 0 {
      MatchCountPositive(z, names);
    }
    SizesAddUp(zones, names, Claimed(zones, names, |names|));
    OvercountZero(zones, names);
  }
}
