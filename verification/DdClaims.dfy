/** The chunks that the slots claim in the course of a run tile the part of the input that the position has passed. */
module DdClaims {
  import opened Basics
  import opened Arith
  import opened DdModel
  import opened DdData
  import opened DdSteps
  import opened DdCount
  import opened DdProgress
  import opened DdTheorems
  import opened DdHalt

  datatype Chunk = Chunk(offset: nat, length: nat) {
    predicate Has(p: nat) { offset <= p < offset + length }
  }

  /** The chunk slot `i` has taken between `s` and `t`, if any: one that starts at or behind the old position. */
  function NewClaim(s: State, t: State, i: nat): seq<Chunk> {
    if i < |t.ios| && t.ios[i].Active() && t.ios[i].offset >= s.pos
    then [Chunk(t.ios[i].offset, t.ios[i].length)] else []
  }

  /** All chunks claimed along the events `es`, in order, and those claimed by start-up from slot `i` on. */
  function RunClaims(c: Config, s: State, es: seq<Event>): seq<Chunk>
    decreases |es|
  {
    if es == [] || !Enabled(s, es[0]) then []
    else
      var t := Step(c, s, es[0]);
      (if es[0].Device? || es[0].Complete? then NewClaim(s, t, es[0].slot) else []) + RunClaims(c, t, es[1..])
  }

  function StartClaims(c: Config, s: State, i: nat, rcs: seq<int>): seq<Chunk>
    requires i + |rcs| == |s.ios|
    decreases |rcs|
  {
    if rcs == [] then []
    else
      var t := TargetSeek(c, s, i, rcs[0]);
      NewClaim(s, t, i) + StartClaims(c, t, i + 1, rcs[1..])
  }

  ghost predicate NothingCopied(c: Config, a: nat, b: nat) { forall p: nat :: a <= p < b ==> !c.Copied(p) }

  /** The chunks lie in `[a, b)` one behind the other, hold only bytes to copy and leave out none. */
  ghost predicate Tiles(c: Config, chunks: seq<Chunk>, a: nat, b: nat)
    decreases |chunks|
  {
    if chunks == [] then a <= b && NothingCopied(c, a, b)
    else
      var k := chunks[0];
      && a <= k.offset && k.length > 0 && NothingCopied(c, a, k.offset)
      && (forall p: nat :: k.Has(p) ==> c.Copied(p))
      && Tiles(c, chunks[1..], k.offset + k.length, b)
  }

  lemma {:induction false} TilesCat(c: Config, x: seq<Chunk>, y: seq<Chunk>, a: nat, b: nat, d: nat)
    requires Tiles(c, x, a, b) && Tiles(c, y, b, d)
    ensures Tiles(c, x + y, a, d)
    decreases |x|
  {
    hide Config.Copied;
    if x == [] {
      assert x + y == y;
    } else {
      TilesCat(c, x[1..], y, x[0].offset + x[0].length, b, d);
      assert (x + y)[1..] == x[1..] + y;
    }
  }

  lemma {:induction false} TilesWithin(c: Config, chunks: seq<Chunk>, a: nat, b: nat)
    requires Tiles(c, chunks, a, b)
    ensures a <= b && forall k :: 0 <= k < |chunks| ==> a <= chunks[k].offset && chunks[k].offset + chunks[k].length <= b
    decreases |chunks|
  {
    hide Config.Copied;
    if chunks != [] {
      var next := chunks[0].offset + chunks[0].length;
      TilesWithin(c, chunks[1..], next, b);
      assert forall k :: 0 < k < |chunks| ==> chunks[k] == chunks[1..][k - 1];
    }
  }

  /** In a tiling a byte belongs to a chunk exactly when it is to be copied, and then to exactly one. */
  lemma {:induction false} TiledOnce(c: Config, chunks: seq<Chunk>, a: nat, b: nat, p: nat)
    requires Tiles(c, chunks, a, b) && a <= p < b
    ensures c.Copied(p) <==> exists k :: 0 <= k < |chunks| && chunks[k].Has(p)
    ensures forall j, k :: 0 <= j < |chunks| && 0 <= k < |chunks| && chunks[j].Has(p) && chunks[k].Has(p) ==> j == k
    decreases |chunks|
  {
    hide Config.Copied;
    if chunks != [] {
      var next := chunks[0].offset + chunks[0].length;
      assert forall k :: 0 < k < |chunks| ==> chunks[k] == chunks[1..][k - 1];
      TilesWithin(c, chunks[1..], next, b);
      if p >= next {
        TiledOnce(c, chunks[1..], next, b, p);
      }
    }
  }

  // ---- single calls ----

  lemma PopulateTiles(c: Config, s: State, i: nat, rc: int)
    requires c.Valid() && PosOk(c, s.pos) && i < |s.ios| && s.ios[i].stage.Idle?
    requires s.pos == c.End() || ClaimOk(c, s.pos, s.ios[i].length)
    requires !PopulateBuffer(c, s, i, rc).Halted()
    ensures Tiles(c, NewClaim(s, PopulateBuffer(c, s, i, rc), i), s.pos, PopulateBuffer(c, s, i, rc).pos)
  {
    hide Config.Start, Config.WriteStart, Config.Aligned, Config.Copied;
    var t := PopulateBuffer(c, s, i, rc);
    if s.pos < c.End() {
      var n := Min(s.ios[i].length, c.End() - s.pos);
      assert NewClaim(s, t, i) == [Chunk(s.pos, n)] && t.pos == s.pos + n;
      assert Tiles(c, [], t.pos, t.pos);
      assert [Chunk(s.pos, n)][1..] == [];
    }
  }

  lemma SeekTiles(c: Config, s: State, i: nat, rc: int)
    requires c.Valid() && DataInv(c, s) && i < |s.ios| && s.ios[i].stage.Idle?
    requires !TargetSeek(c, s, i, rc).Halted()
    ensures Tiles(c, NewClaim(s, TargetSeek(c, s, i, rc), i), s.pos, TargetSeek(c, s, i, rc).pos)
  {
    hide DataInv, Config.Valid, Config.Start, Config.WriteStart, PopulateBuffer, Config.Copied, Find, PosOk, ClaimOk;
    DataPos(c, s);
    if s.Halted() {
      SeekStaysHalted(c, s, i, rc);
    } else if c.mode.Dense? {
      if s.pos < c.End() {
        DenseClaimOk(c, s, i);
      }
      PopulateTiles(c, s, i, rc);
    } else if c.mode.SparseFile? && s.pos < c.End() && Find(c.hole, s.pos, false) < |c.hole| {
      ExtentTiles(c, s, i, rc);
    } else {
      assert TargetSeek(c, s, i, rc).pos == s.pos;
    }
  }

  lemma SeekStaysHalted(c: Config, s: State, i: nat, rc: int)
    requires i < |s.ios| && s.Halted()
    ensures TargetSeek(c, s, i, rc).Halted()
  {
    hide Config.Start, Config.WriteStart, Find;
  }

  lemma ExtentTiles(c: Config, s: State, i: nat, rc: int)
    requires c.Valid() && DataInv(c, s) && i < |s.ios| && s.ios[i].stage.Idle? && !c.mode.Dense?
    requires Find(c.hole, s.pos, false) < |c.hole|
    requires var data := Find(c.hole, s.pos, false);
             !PopulateBuffer(c, Extent(c, s, i, data, Find(c.hole, data, true)), i, rc).Halted()
    ensures var data := Find(c.hole, s.pos, false);
            var t := PopulateBuffer(c, Extent(c, s, i, data, Find(c.hole, data, true)), i, rc);
            Tiles(c, NewClaim(s, t, i), s.pos, t.pos)
  {
    hide DataInv, Config.Start, PopulateBuffer, PosOk;
    var data := Find(c.hole, s.pos, false);
    var s1 := Extent(c, s, i, data, Find(c.hole, data, true));
    var t := PopulateBuffer(c, s1, i, rc);
    SkipHole(c, s, data);
    DataPos(c, s.(pos := data));
    ExtentClaimOk(c, data);
    PopulateTiles(c, s1, i, rc);
    assert Tiles(c, [], s.pos, data);
    TilesCat(c, [], NewClaim(s1, t, i), s.pos, data, t.pos);
    TilesWithin(c, NewClaim(s1, t, i), data, t.pos);
    PopulateFrom(c, s1, i, rc);
    assert [] + NewClaim(s1, t, i) == NewClaim(s, t, i);
  }

  lemma PopulateFrom(c: Config, s: State, i: nat, rc: int)
    requires i < |s.ios| && s.ios[i].stage.Idle?
    ensures PopulateBuffer(c, s, i, rc).ios[i].Active() ==> PopulateBuffer(c, s, i, rc).ios[i].offset == s.pos
  {
    hide Config.Start, Config.Aligned;
  }

  lemma SeekDataDoneTiles(c: Config, s: State, i: nat, rc: int)
    requires SeekInv(c, s) && !c.mode.Dense? && i < |s.ios| && s.ios[i].stage.SeekingData?
    ensures var t := SeekDataDone(c, s, i, s.ios[i].stage.from, rc);
            NewClaim(s, t, i) == [] && Tiles(c, [], s.pos, t.pos)
  {
    hide Config.Start, Config.WriteStart;
    assert SeekOk(c, s.pos, s.ios[i].stage);
  }

  lemma SeekHoleDoneTiles(c: Config, s: State, i: nat, rc: int, rcNext: int)
    requires c.Valid() && DataInv(c, s) && SeekInv(c, s) && i < |s.ios| && s.ios[i].stage.SeekingHole?
    requires !s.Halted() && !SeekHoleDone(c, s, i, s.ios[i].stage.from, rc, rcNext).Halted()
    ensures var t := SeekHoleDone(c, s, i, s.ios[i].stage.from, rc, rcNext);
            Tiles(c, NewClaim(s, t, i), s.pos, t.pos)
  {
    hide DataInv, Config.Start, Config.WriteStart, PopulateBuffer, PosOk, Find, Config.Copied, ClaimOk, Tiles;
    HoleReady(c, s, i);
    DataPos(c, s);
    assert i in s.queue && SeekOk(c, s.pos, s.ios[i].stage);
    ExtentClaimOk(c, s.pos);
    var s1 := HoleFound(c, s, i, Find(c.hole, s.pos, true));
    var s2 := PopulateBuffer(c, s1, i, rc);
    PopulateTiles(c, s1, i, rc);
    PopulateShape(c, s1, i, rc);
    DequeueKeepsQueue(c, s, s2, i);
    NextSeekClaimsNothing(c, s2, i, rcNext);
  }

  lemma NextSeekClaimsNothing(c: Config, s: State, i: nat, rc: int)
    requires SeekInv(c, s) && NoSeek(s) && i < |s.ios| && !s.ios[i].stage.Waiting?
    ensures StartNextSeek(c, s, rc).pos == s.pos && StartNextSeek(c, s, rc).ios[i] == s.ios[i]
    ensures s.Halted() ==> StartNextSeek(c, s, rc).Halted()
  {
    if s.queue != [] {
      assert s.queue[0] in s.queue;
    }
  }

  /** Where the position stands still nothing is claimed: every chunk lies in front of it. */
  lemma StandsStill(c: Config, s: State, t: State, i: nat)
    requires DataInv(c, t) && t.pos == s.pos
    ensures NewClaim(s, t, i) == [] && Tiles(c, [], s.pos, t.pos)
  {
    hide Separate, Outside, Mixed, Untouched, Covered, Config.Start, Config.Aligned, TailOk, FrontOk, Config.Copied;
    if i < |t.ios| {
      assert SlotOk(c, t.pos, t.output, t.size, t.ios[i]);
    }
  }

  lemma StepTiles(c: Config, s: State, e: Event)
    requires c.Valid() && Inv(c, s) && Enabled(s, e) && !s.Halted() && !Step(c, s, e).Halted()
    ensures Tiles(c, if e.Device? || e.Complete? then NewClaim(s, Step(c, s, e), e.slot) else [], s.pos, Step(c, s, e).pos)
  {
    hide DataInv, SeekInv, CountInv, ExitInv, AccountInv, Config.Valid, NewClaim, Tiles, RoundUp, Config.At;
    hide TargetSeek, SeekDataDone, SeekHoleDone;
    StepKeeps(c, s, e);
    match e
    case Device(i) => StandsStill(c, s, Step(c, s, e), i);
    case Complete(i, res, rc, rcNext) =>
      match s.ios[i].stage {
        case SeekingData(_) =>
          SeekerIsSparse(c, s, i);
          SeekDataDoneTiles(c, s, i, rc);
        case SeekingHole(_) => SeekHoleDoneTiles(c, s, i, rc, rcNext);
        case Writing =>
          ReleasedKeeps(c, s, i, res, rc, rcNext);
          SeekTiles(c, Released(s, i, res), i, rc);
          SamePos(s, Released(s, i, res), Step(c, s, e), i);
        case Populating => StandsStill(c, s, Step(c, s, e), i);
        case Reading => StandsStill(c, s, Step(c, s, e), i);
        case _ =>
      }
    case StatusPoll => NoChunks(c, s.pos);
    case _ =>
  }

  lemma SamePos(s: State, s': State, t: State, i: nat)
    requires s.pos == s'.pos
    ensures NewClaim(s, t, i) == NewClaim(s', t, i)
  {
  }

  lemma SeekerIsSparse(c: Config, s: State, i: nat)
    requires SeekInv(c, s) && i < |s.ios| && s.ios[i].Seeking()
    ensures c.mode.SparseBdev?
  {
    assert i in s.queue;
  }

  // ---- whole runs ----

  lemma {:induction false} RunTiles(c: Config, s: State, es: seq<Event>, t: State)
    requires c.Valid() && Inv(c, s) && Run(c, s, es, t) && !t.Halted()
    ensures !s.Halted() && Tiles(c, RunClaims(c, s, es), s.pos, t.pos)
    decreases |es|
  {
    hide Inv, Step, NewClaim, Config.Valid, Tiles, Config.Copied;
    if es == [] {
      NoChunks(c, s.pos);
    } else {
      var e, s1 := es[0], Step(c, s, es[0]);
      StepKeeps(c, s, e);
      RunTiles(c, s1, es[1..], t);
      if s.Halted() {
        HaltedStep(c, s, e);
      } else {
        StepTiles(c, s, e);
        var first := if e.Device? || e.Complete? then NewClaim(s, s1, e.slot) else [];
        TilesCat(c, first, RunClaims(c, s1, es[1..]), s.pos, s1.pos, t.pos);
      }
    }
  }

  lemma NoChunks(c: Config, a: nat)
    ensures Tiles(c, [], a, a)
  {
  }

  lemma {:induction false} StartTiles(c: Config, s: State, i: nat, rcs: seq<int>)
    requires c.Valid() && StartInv(c, s, i) && i + |rcs| == |s.ios| && !StartSlots(c, s, i, rcs).Halted()
    ensures !s.Halted() && Tiles(c, StartClaims(c, s, i, rcs), s.pos, StartSlots(c, s, i, rcs).pos)
    decreases |rcs|
  {
    hide DataInv, SeekInv, CountInv, ExitInv, AccountInv, TargetSeek, NewClaim, Config.Valid, Tiles, Config.Copied;
    if rcs == [] {
      NoChunks(c, s.pos);
    } else {
      var s1 := TargetSeek(c, s, i, rcs[0]);
      StartOne(c, s, i, rcs[0]);
      StartTiles(c, s1, i + 1, rcs[1..]);
      if s.Halted() {
        SeekStaysHalted(c, s, i, rcs[0]);
      } else {
        SeekTiles(c, s, i, rcs[0]);
        TilesCat(c, NewClaim(s, s1, i), StartClaims(c, s1, i + 1, rcs[1..]), s.pos, s1.pos, StartSlots(c, s, i, rcs).pos);
      }
    }
  }

  /** While no error or interrupt has occurred, the chunks claimed so far, in the order they were claimed, tile the
      region up to the position: every byte to copy was claimed exactly once, and no other byte was. */
  lemma ClaimsTile(c: Config, buf: seq<Byte>, interrupted: bool, rcs: seq<int>, es: seq<Event>, t: State)
    requires Execution(c, buf, interrupted, rcs, es, t) && !t.Halted()
    ensures var chunks := StartClaims(c, Fresh(c, buf, interrupted), 0, rcs)
                          + RunClaims(c, Started(c, buf, interrupted, rcs), es);
      && Tiles(c, chunks, c.Start(), t.pos)
      && (forall p: nat :: c.Start() <= p < t.pos ==> (c.Copied(p) <==> exists k :: 0 <= k < |chunks| && chunks[k].Has(p)))
      && (forall j, k, p: nat :: 0 <= j < k < |chunks| && chunks[j].Has(p) ==> !chunks[k].Has(p))
  {
    hide Run, Inv, StartSlots, StartClaims, RunClaims, Tiles, Config.Copied, Config.Valid, Config.Start;
    var s0, s := Fresh(c, buf, interrupted), Started(c, buf, interrupted, rcs);
    FreshInv(c, buf, interrupted);
    StartUp(c, buf, interrupted, rcs);
    RunTiles(c, s, es, t);
    StartTiles(c, s0, 0, rcs);
    var chunks := StartClaims(c, s0, 0, rcs) + RunClaims(c, s, es);
    TilesCat(c, StartClaims(c, s0, 0, rcs), RunClaims(c, s, es), c.Start(), s.pos, t.pos);
    TilesWithin(c, chunks, c.Start(), t.pos);
    forall p: nat | c.Start() <= p < t.pos
      ensures c.Copied(p) <==> exists k :: 0 <= k < |chunks| && chunks[k].Has(p)
    {
      TiledOnce(c, chunks, c.Start(), t.pos, p);
    }
    forall j, k, p: nat | 0 <= j < k < |chunks| && chunks[j].Has(p) ensures !chunks[k].Has(p) {
      TiledOnce(c, chunks, c.Start(), t.pos, p);
    }
  }
}
