/**
 A sparse copy from a block device can stop with slots left in the seek queue and nobody seeking.
 This module says exactly for which jobs that can happen without any error or interrupt.
 */
module DdDeadlock {
  import opened Basics
  import opened Arith
  import opened DdModel
  import opened DdData
  import opened DdSteps
  import opened DdCount
  import opened DdProgress
  import opened DdTheorems
  import opened DdComplete

  /** Nothing is in flight and yet the program has not ended. */
  ghost predicate Stuck(s: State) {
    s.exits == [] && forall i :: 0 <= i < |s.ios| ==> !s.ios[i].InFlight()
  }

  ghost predicate TrailingHole(c: Config) { c.copySize > 0 && c.End() <= |c.hole| && c.hole[c.End() - 1] }

  ghost predicate HasData(c: Config) { exists p: nat :: c.Start() <= p < c.End() && p < |c.hole| && !c.hole[p] }

  ghost predicate CanHang(c: Config) { c.depth >= 3 && TrailingHole(c) && HasData(c) }

  // ---- jobs that cannot hang ----

  /** While the job runs, a non-empty queue has its head seeking, unless the input is exhausted. */
  ghost predicate HeadInv(c: Config, s: State) {
    && (s.exits == [] && !s.Halted() && s.queue != [] && s.pos != c.End() ==>
          s.queue[0] < |s.ios| && s.ios[s.queue[0]].Seeking())
    && (forall i :: 0 <= i < |s.ios| && s.ios[i].Seeking() ==> s.pos != c.End())
    && (s.exits == [] && !s.Halted() ==> s.outstanding > 0)
  }

  lemma OnlyInFlight(s: State, i: nat)
    requires i < |s.ios| && s.ios[i].InFlight()
    requires forall j :: 0 <= j < |s.ios| && j != i ==> !s.ios[j].InFlight()
    ensures Sum(s.ios, Busy) == 1
  {
    var rest := s.ios[i := s.ios[i].(stage := Idle)];
    SumUpdate(s.ios, i, s.ios[i].(stage := Idle), Busy);
    SumZero(rest, Busy);
  }

  lemma ActiveHasData(c: Config, s: State, j: nat)
    requires DataInv(c, s) && j < |s.ios| && !c.mode.Dense?
    ensures s.ios[j].Active() ==> HasData(c)
  {
    hide Separate, Outside, Mixed, Untouched, Covered, TailOk, FrontOk, Config.Start, Config.Aligned;
    assert SlotOk(c, s.pos, s.output, s.size, s.ios[j]);
    if s.ios[j].Active() {
      assert c.Copied(s.ios[j].offset);
    }
  }

  /** When the last seek finds no data and others still wait, a job that cannot hang has nothing else in flight. */
  lemma LastSeekIsAlone(c: Config, s: State, i: nat)
    requires c.Valid() && Inv(c, s) && HeadInv(c, s) && !CanHang(c) && s.exits == [] && !s.Halted()
    requires i < |s.ios| && s.ios[i].stage.SeekingData? && |s.queue| > 1
    requires Find(c.hole, s.pos, false) >= |c.hole|
    ensures s.outstanding == 1
  {
    hide Config.Start, Config.Aligned, Separate, Outside, Mixed, Untouched, Covered, ExitInv, AccountInv, SlotsOk, HasData;
    assert i in s.queue && s.queue[0] == i;
    assert c.hole[c.End() - 1];
    assert c.depth >= 3 ==> !HasData(c);
    var k := s.queue[1];
    assert k in s.queue;
    forall j | 0 <= j < |s.ios| && j != i ensures !s.ios[j].InFlight() {
      ActiveHasData(c, s, j);
    }
    OnlyInFlight(s, i);
  }

  lemma SeekDataDoneHead(c: Config, s: State, i: nat, rc: int)
    requires c.Valid() && Inv(c, s) && HeadInv(c, s) && !CanHang(c) && s.exits == []
    requires i < |s.ios| && s.ios[i].stage.SeekingData?
    ensures HeadInv(c, SeekDataDone(c, s, i, s.ios[i].stage.from, rc))
  {
    hide DataInv, CountInv, ExitInv, AccountInv, CanHang, Config.Start, Config.WriteStart;
    assert i in s.queue && SeekOk(c, s.pos, s.ios[i].stage);
    DataPos(c, s);
    NonNegative(c, s);
    if !s.Halted() && |s.queue| > 1 && Find(c.hole, s.pos, false) >= |c.hole| {
      LastSeekIsAlone(c, s, i);
    }
  }

  lemma SeekHoleDoneHead(c: Config, s: State, i: nat, rc: int, rcNext: int)
    requires c.Valid() && Inv(c, s) && HeadInv(c, s) && s.exits == []
    requires i < |s.ios| && s.ios[i].stage.SeekingHole?
    ensures HeadInv(c, SeekHoleDone(c, s, i, s.ios[i].stage.from, rc, rcNext))
  {
    hide DataInv, CountInv, ExitInv, AccountInv, Config.Valid, PopulateBuffer, Find, Finished, PosOk;
    HoleReady(c, s, i);
    DataPos(c, s);
    InputEnd(c);
    CompletionIsCounted(c, s, i);
    if !s.Halted() {
      var s1 := HoleFound(c, s, i, Find(c.hole, s.ios[i].stage.from, true));
      var s2 := PopulateBuffer(c, s1, i, rc);
      PopulateLaunches(c, s1, i, rc);
      PopulateShape(c, s1, i, rc);
      DequeueKeepsQueue(c, s, s2, i);
      PopulateKeepsPos(c, s, i, rc);
      if s2.queue != [] { assert s2.queue[0] in s2.queue; }
    } else {
      DequeueKeepsQueue(c, s, Dequeue(s, i), i);
    }
  }

  lemma InputEnd(c: Config)
    requires c.Valid() && !c.mode.Dense?
    ensures c.End() == |c.input| == |c.hole|
  {
  }

  lemma PopulateKeepsPos(c: Config, s: State, i: nat, rc: int)
    requires c.Valid() && DataInv(c, s) && SeekInv(c, s) && i < |s.ios| && s.ios[i].stage.SeekingHole? && !s.Halted()
    ensures PopulateBuffer(c, HoleFound(c, s, i, Find(c.hole, s.ios[i].stage.from, true)), i, rc).pos <= c.End()
  {
    hide Config.Start, Config.WriteStart, Config.Aligned, Find, SlotsOk, Separate, Outside, Mixed, Untouched, Covered;
  }

  lemma WriteDoneHead(c: Config, s: State, i: nat, rc: int)
    requires c.Valid() && Inv(c, s) && s.exits == [] && i < |s.ios| && s.ios[i].stage.Idle? && c.mode.SparseBdev?
    requires s.Halted() || s.queue == [] || s.pos == c.End() || s.ios[s.queue[0]].Seeking()
    requires forall j :: 0 <= j < |s.ios| && s.ios[j].Seeking() ==> s.pos != c.End()
    ensures HeadInv(c, TargetSeek(c, s, i, rc))
  {
    hide Config.Start, Config.WriteStart, Config.Aligned, Find, DataInv, ExitInv, AccountInv, Config.Valid, SeekOk, PosOk;
    DataPos(c, s);
    NonNegative(c, s);
    if s.queue != [] {
      assert s.queue[0] in s.queue;
      if s.ios[s.queue[0]].Seeking() {
        CompletionIsCounted(c, s, s.queue[0]);
      }
    }
  }

  lemma SameStagesHead(c: Config, s: State, t: State)
    requires HeadInv(c, s) && |t.ios| == |s.ios| && t.queue == s.queue && t.pos == s.pos
    requires t.exits == s.exits && t.outstanding == s.outstanding && t.error == s.error && t.interrupt == s.interrupt
    requires forall j :: 0 <= j < |s.ios| ==> t.ios[j].stage == s.ios[j].stage
    ensures HeadInv(c, t)
  {
  }

  lemma ChunkDoneHead(c: Config, s: State, i: nat, res: int, rc: int, rcNext: int)
    requires CountInv(c, s) && HeadInv(c, s) && Enabled(s, Complete(i, res, rc, rcNext))
    requires s.ios[i].stage.Populating? || s.ios[i].stage.Reading?
    ensures HeadInv(c, CompletePoll(c, s, i, res, rc, rcNext))
  {
    hide CountInv, Finished, Config.End;
    ReleasedCount(c, s, i, res);
    if s.ios[i].stage.Populating? {
      ReadLaunches(c, Released(s, i, res), i, rc);
    } else {
      WriteLaunches(c, Released(s, i, res), i, rc);
    }
  }

  lemma StepKeepsHead(c: Config, s: State, e: Event)
    requires c.Valid() && c.mode.SparseBdev? && Inv(c, s) && HeadInv(c, s) && !CanHang(c) && Enabled(s, e)
    ensures HeadInv(c, Step(c, s, e))
  {
    hide DataInv, SeekInv, CountInv, ExitInv, AccountInv, CanHang, Config.Valid, RoundUp, Config.Start, Config.End;
    hide TargetRead, TargetWrite, TargetSeek, SeekDataDone, SeekHoleDone;
    match e
    case Device(i) => SameStagesHead(c, s, Step(c, s, e));
    case Complete(i, res, rc, rcNext) =>
      match s.ios[i].stage {
        case SeekingData(_) => SeekDataDoneHead(c, s, i, rc);
        case SeekingHole(_) => SeekHoleDoneHead(c, s, i, rc, rcNext);
        case Writing =>
          ReleasedInv(c, s, i, res, rc, rcNext);
          QueueInRange(c, s);
          WriteDoneHead(c, Released(s, i, res), i, rc);
        case _ => ChunkDoneHead(c, s, i, res, rc, rcNext);
      }
    case _ =>
  }

  lemma QueueInRange(c: Config, s: State)
    requires SeekInv(c, s)
    ensures s.queue != [] ==> s.queue[0] < |s.ios|
  {
  }

  lemma ReleasedInv(c: Config, s: State, i: nat, res: int, rc: int, rcNext: int)
    requires c.Valid() && Inv(c, s) && Enabled(s, Complete(i, res, rc, rcNext)) && s.ios[i].stage.Writing?
    ensures Inv(c, Released(s, i, res))
  {
    hide DataInv, SeekInv, CountInv, Config.Valid;
    ReleasedKeeps(c, s, i, res, rc, rcNext);
    ReleasedCount(c, s, i, res);
    SumUpdate(s.ios, i, Released(s, i, res).ios[i], Unwritten);
  }

  lemma {:induction false} StartHead(c: Config, s: State, i: nat, rcs: seq<int>)
    requires c.Valid() && c.mode.SparseBdev? && StartInv(c, s, i) && i + |rcs| == |s.ios|
    requires if i == 0 then s.queue == [] else HeadInv(c, s)
    requires forall j :: 0 <= j < |s.ios| && s.ios[j].Seeking() ==> s.pos != c.End()
    ensures |rcs| > 0 || i > 0 ==> HeadInv(c, StartSlots(c, s, i, rcs))
    decreases |rcs|
  {
    hide StartInv, TargetSeek, Config.Valid, Config.End;
    if rcs != [] {
      StartOne(c, s, i, rcs[0]);
      StartOneHead(c, s, i, rcs[0]);
      StartHead(c, TargetSeek(c, s, i, rcs[0]), i + 1, rcs[1..]);
    }
  }

  lemma StartOneHead(c: Config, s: State, i: nat, rc: int)
    requires c.Valid() && c.mode.SparseBdev? && StartInv(c, s, i) && i < |s.ios|
    requires if i == 0 then s.queue == [] else HeadInv(c, s)
    requires forall j :: 0 <= j < |s.ios| && s.ios[j].Seeking() ==> s.pos != c.End()
    ensures HeadInv(c, TargetSeek(c, s, i, rc))
  {
    hide DataInv, SeekInv, CountInv, ExitInv, AccountInv, Config.Valid, Config.End;
    if s.exits == [] {
      QueueInRange(c, s);
      WriteDoneHead(c, s, i, rc);
    } else {
      StoppedHead(c, s, i, rc);
    }
  }

  lemma StoppedHead(c: Config, s: State, i: nat, rc: int)
    requires c.Valid() && c.mode.SparseBdev? && DataInv(c, s) && i < |s.ios| && HeadInv(c, s) && s.exits != []
    requires s.Halted() || s.pos == c.End()
    ensures HeadInv(c, TargetSeek(c, s, i, rc))
  {
    hide DataInv, Config.Valid, Config.Start;
    DataPos(c, s);
    assert TargetSeek(c, s, i, rc).ios == s.ios;
  }

  lemma {:induction false} RunKeepsHead(c: Config, s: State, es: seq<Event>, t: State)
    requires c.Valid() && c.mode.SparseBdev? && Inv(c, s) && HeadInv(c, s) && !CanHang(c) && Run(c, s, es, t)
    ensures HeadInv(c, t) && Inv(c, t)
    decreases |es|
  {
    hide Inv, HeadInv, Step, CanHang, Config.Valid;
    if es != [] {
      StepKeeps(c, s, es[0]);
      StepKeepsHead(c, s, es[0]);
      RunKeepsHead(c, Step(c, s, es[0]), es[1..], t);
    }
  }

  /** With at most two slots, data in the last byte, or no data at all, no run gets stuck without an error or an
      interrupt. */
  lemma NoHang(c: Config, buf: seq<Byte>, interrupted: bool, rcs: seq<int>, es: seq<Event>, t: State)
    requires Execution(c, buf, interrupted, rcs, es, t) && c.mode.SparseBdev? && !CanHang(c)
    ensures Stuck(t) ==> t.Halted()
  {
    hide CanHang, Run, DataInv, SeekInv, ExitInv, AccountInv, Config.Valid, Config.End;
    FreshInv(c, buf, interrupted);
    StartHead(c, Fresh(c, buf, interrupted), 0, rcs);
    StartUp(c, buf, interrupted, rcs);
    RunKeepsHead(c, Started(c, buf, interrupted, rcs), es, t);
    SumZero(t.ios, Busy);
    if forall i :: 0 <= i < |t.ios| ==> !t.ios[i].InFlight() {
      assert forall i :: 0 <= i < |t.ios| ==> Busy(t.ios[i]) == 0;
    }
  }

  /** For a job that cannot hang, every run without failures, followed as far as it goes, performs the copy. */
  lemma SafeBdevRunsCopy(c: Config, buf: seq<Byte>, rcs: seq<int>, es: seq<Event>, t: State)
    requires Execution(c, buf, false, rcs, es, t) && c.mode.SparseBdev? && !CanHang(c)
    requires (forall k :: 0 <= k < |rcs| ==> rcs[k] == 0) && (forall k :: 0 <= k < |es| ==> Clean(es[k]))
    requires forall i: nat :: !Enabled(t, Device(i)) && !Enabled(t, Complete(i, 0, 0, 0))
    ensures t.exits != [] && t.output == SliceCopy(c)
  {
    hide Run, SliceCopy, CanHang;
    StartClean(c, Fresh(c, buf, false), 0, rcs);
    RunClean(c, Started(c, buf, false, rcs), es, t);
    NoHang(c, buf, false, rcs, es, t);
    if t.exits == [] {
      Unstuck(t);
    }
    FinishedRunIsSliceCopy(c, buf, false, rcs, es, t);
  }

  lemma Unstuck(t: State)
    requires t.exits == [] && !Stuck(t)
    ensures exists i: nat :: Enabled(t, Device(i)) || Enabled(t, Complete(i, 0, 0, 0))
  {
    var i :| 0 <= i < |t.ios| && t.ios[i].InFlight();
    assert Enabled(t, Device(i)) || Enabled(t, Complete(i, 0, 0, 0));
  }

  // ---- jobs that can hang ----

  /** `e` happens at the end of the run `es`. */
  lemma Then(c: Config, s: State, es: seq<Event>, t: State, e: Event) returns (es': seq<Event>, u: State)
    requires c.Valid() && Inv(c, t) && Run(c, s, es, t) && Enabled(t, e)
    ensures es' == es + [e] && u == Step(c, t, e) && Run(c, s, es', u) && Inv(c, u)
  {
    hide Inv, Step, Enabled, Run;
    RunSnoc(c, s, es, t, e);
    StepKeeps(c, t, e);
    es', u := es + [e], Step(c, t, e);
  }

  ghost predicate Calm(s: State) { s.exits == [] && !s.Halted() }

  ghost predicate OthersWait(s: State, i: nat, j: nat) {
    forall k :: 0 <= k < |s.ios| && k != i && k != j ==> s.ios[k].stage.Waiting?
  }

  /** The head of the queue is about to seek and everybody else waits behind it. */
  ghost predicate Round(c: Config, s: State) {
    && Inv(c, s) && Calm(s) && s.outstanding == 1 && |s.queue| >= 3 && s.pos < c.End()
    && s.queue[0] < |s.ios| && s.ios[s.queue[0]].stage == SeekingData(s.pos) && !s.ios[s.queue[0]].applied
    && OthersWait(s, s.queue[0], s.queue[0])
  }

  /** Slot `i` is moving a chunk, slot `j` heads the queue and is about to seek, the rest wait. */
  ghost predicate Handover(c: Config, s: State, i: nat, j: nat, stage: Stage) {
    && Inv(c, s) && Calm(s) && s.outstanding == 2 && |s.queue| >= 2 && s.pos < c.End()
    && i < |s.ios| && j < |s.ios| && i != j && s.queue[0] == j
    && s.ios[i].stage == stage && s.ios[j].stage == SeekingData(s.pos) && !s.ios[j].applied
    && OthersWait(s, i, j)
  }

  lemma FindData(c: Config, s: State) returns (es: seq<Event>, t: State)
    requires c.Valid() && c.mode.SparseBdev? && Round(c, s) && Find(c.hole, s.pos, false) < c.End()
    ensures Run(c, s, es, t) && Inv(c, t) && Calm(t) && t.outstanding == 1 && t.queue == s.queue && |t.ios| == |s.ios|
    ensures t.pos == Find(c.hole, s.pos, false)
    ensures t.ios[s.queue[0]].stage == SeekingHole(t.pos) && !t.ios[s.queue[0]].applied
    ensures OthersWait(t, s.queue[0], s.queue[0])
  {
    hide Inv, Config.Start, Find, Run;
    var i := s.queue[0];
    InputEnd(c);
    RunNil(c, s);
    es, t := Then(c, s, [], s, Device(i));
    es, t := Then(c, s, es, t, Complete(i, 0, 0, 0));
  }

  lemma ClaimBeforeHole(c: Config, s: State, i: nat)
    requires c.Valid() && c.mode.SparseBdev? && TrailingHole(c) && Inv(c, s) && Calm(s)
    requires i < |s.ios| && s.ios[i].stage.SeekingHole?
    ensures var u := PopulateBuffer(c, HoleFound(c, s, i, Find(c.hole, s.ios[i].stage.from, true)), i, 0);
      && s.pos < u.pos < c.End() && u.ios[i].stage == Reading && !u.ios[i].applied && u.outstanding == s.outstanding
      && u.exits == [] && !u.Halted() && |u.ios| == |s.ios| && u.queue == (if s.queue == [] then [] else s.queue[1..])
      && (forall k :: 0 <= k < |s.ios| && k != i ==> u.ios[k] == s.ios[k])
  {
    hide SlotsOk, Separate, Outside, Mixed, Untouched, Covered, LengthsOk, CountInv, ExitInv, AccountInv;
    hide Config.Start, Config.WriteStart, Config.Aligned;
    var s1 := HoleFound(c, s, i, Find(c.hole, s.ios[i].stage.from, true));
    HoleReady(c, s, i);
    assert SeekOk(c, s.pos, s.ios[i].stage);
    ExtentClaimOk(c, s.pos);
    var n := Min(s1.ios[i].length, c.End() - s.pos);
    assert ClaimOk(c, s.pos, s1.ios[i].length);
    assert !c.Copied(c.End() - 1);
    PopulateShape(c, s1, i, 0);
  }

  lemma ClaimChunk(c: Config, s: State) returns (es: seq<Event>, t: State)
    requires c.Valid() && c.mode.SparseBdev? && TrailingHole(c) && Round(c, s) && Find(c.hole, s.pos, false) < c.End()
    ensures Run(c, s, es, t) && Handover(c, t, s.queue[0], s.queue[1], Reading)
    ensures t.pos > s.pos && t.queue == s.queue[1..] && !t.ios[s.queue[0]].applied
  {
    hide Inv, Config.Start, Find, Run, TrailingHole, PopulateBuffer, Round;
    RoundQueue(c, s);
    var i, j := s.queue[0], s.queue[1];
    es, t := FindData(c, s);
    var s1 := t;
    es, t := Then(c, s, es, t, Device(i));
    var s2 := t;
    assert s2 == s1.(ios := s1.ios[i := s1.ios[i].(applied := true)]);
    InputEnd(c);
    ClaimBeforeHole(c, s2, i);
    es, t := Then(c, s, es, t, Complete(i, 0, 0, 0));
    assert t == StartNextSeek(c, PopulateBuffer(c, HoleFound(c, s2, i, Find(c.hole, s2.pos, true)), i, 0), 0);
  }

  lemma RoundQueue(c: Config, s: State)
    requires Round(c, s)
    ensures |s.queue| >= 3 && s.queue[0] < |s.ios| && s.queue[1] < |s.ios| && s.queue[0] != s.queue[1]
    ensures s.pos <= Find(c.hole, s.pos, false)
  {
  }

  /** Slot `i` reads and writes its chunk while slot `j` keeps seeking. */
  lemma MoveChunk(c: Config, s: State, i: nat, j: nat) returns (es: seq<Event>, t: State)
    requires c.Valid() && c.mode.SparseBdev? && Handover(c, s, i, j, Reading) && !s.ios[i].applied
    ensures Run(c, s, es, t) && Handover(c, t, i, j, Writing) && t.ios[i].applied
    ensures t.pos == s.pos && t.queue == s.queue && |t.ios| == |s.ios|
  {
    hide Inv, Config.Start, Config.WriteStart, Run, RoundUp, Store, Fetch, Config.At;
    RunNil(c, s);
    es, t := Then(c, s, [], s, Device(i));
    es, t := Then(c, s, es, t, Complete(i, 0, 0, 0));
    es, t := Then(c, s, es, t, Device(i));
  }

  /** Releasing slot `i` after its write puts it at the end of the queue. */
  lemma RejoinQueue(c: Config, s: State, i: nat) returns (es: seq<Event>, t: State)
    requires c.Valid() && c.mode.SparseBdev? && Inv(c, s) && Calm(s) && s.queue != [] && s.pos < c.End()
    requires i < |s.ios| && s.ios[i].stage.Writing? && s.ios[i].applied
    ensures Run(c, s, es, t) && Inv(c, t) && Calm(t) && t.outstanding == s.outstanding - 1
    ensures t.queue == s.queue + [i] && t.pos == s.pos && |t.ios| == |s.ios|
    ensures t.ios[i].stage == Waiting && forall k :: 0 <= k < |s.ios| && k != i ==> t.ios[k] == s.ios[k]
  {
    hide DataInv, SeekInv, CountInv, ExitInv, AccountInv, Config.Start, Run;
    RunNil(c, s);
    DataPos(c, s);
    es, t := Then(c, s, [], s, Complete(i, 0, 0, 0));
  }

  /** Slot `j` learns that there is no more data while slot `i` is still busy. */
  lemma SeekInVain(c: Config, s: State, i: nat, j: nat) returns (es: seq<Event>, t: State)
    requires c.Valid() && c.mode.SparseBdev? && Handover(c, s, i, j, Writing) && s.ios[i].applied
    requires Find(c.hole, s.pos, false) >= c.End()
    ensures Run(c, s, es, t) && Inv(c, t) && Calm(t) && t.outstanding == 1
    ensures t.queue == s.queue[1..] && t.pos == s.pos && |t.ios| == |s.ios|
    ensures t.ios[i] == s.ios[i] && t.ios[j].stage == Idle && OthersWait(t, i, j)
  {
    hide Inv, Config.Start, Find, Run;
    InputEnd(c);
    RunNil(c, s);
    es, t := Then(c, s, [], s, Device(j));
    es, t := Then(c, s, es, t, Complete(j, 0, 0, 0));
  }

  /** From a round with data ahead of a trailing hole some continuation gets stuck. */
  lemma {:induction false} RoundHangs(c: Config, s: State) returns (es: seq<Event>, t: State)
    requires c.Valid() && c.mode.SparseBdev? && TrailingHole(c) && Round(c, s) && Find(c.hole, s.pos, false) < c.End()
    ensures Run(c, s, es, t) && Stuck(t) && !t.Halted()
    decreases c.End() - s.pos
  {
    hide Inv, Config.Start, Find, Run, TrailingHole, Config.Valid;
    RoundQueue(c, s);
    var i, j := s.queue[0], s.queue[1];
    var es1, s1 := ClaimChunk(c, s);
    var es2, s2 := MoveChunk(c, s1, i, j);
    RunCat(c, s, es1, s1, es2, s2);
    if Find(c.hole, s2.pos, false) < c.End() {
      var es3, s3 := RejoinQueue(c, s2, i);
      RunCat(c, s, es1 + es2, s2, es3, s3);
      var es4, s4 := RoundHangs(c, s3);
      RunCat(c, s, es1 + es2 + es3, s3, es4, s4);
      es, t := es1 + es2 + es3 + es4, s4;
    } else {
      var es3, s3 := SeekInVain(c, s2, i, j);
      RunCat(c, s, es1 + es2, s2, es3, s3);
      var es4, s4 := RejoinQueue(c, s3, i);
      RunCat(c, s, es1 + es2 + es3, s3, es4, s4);
      es, t := es1 + es2 + es3 + es4, s4;
    }
  }

  /** After start-up without errors slot 0 seeks and the others queue up behind it. */
  lemma {:induction false} StartQueue(c: Config, s: State, i: nat, rcs: seq<int>)
    requires c.mode.SparseBdev? && c.copySize > 0 && i + |rcs| == |s.ios| && i > 0
    requires forall k :: 0 <= k < |rcs| ==> rcs[k] == 0
    requires Calm(s) && s.outstanding == 1 && s.pos == c.Start() && |s.queue| == i && s.queue[0] == 0
    requires s.ios[0].stage == SeekingData(c.Start()) && !s.ios[0].applied
    requires forall k :: 0 < k < i ==> s.ios[k].stage.Waiting?
    ensures var t := StartSlots(c, s, i, rcs);
      && Calm(t) && t.outstanding == 1 && t.pos == c.Start() && |t.queue| == |s.ios| && t.queue[0] == 0
      && |t.ios| == |s.ios| && t.ios[0].stage == SeekingData(c.Start()) && !t.ios[0].applied
      && OthersWait(t, 0, 0)
    decreases |rcs|
  {
    hide Config.Start;
    if rcs != [] {
      StartQueue(c, TargetSeek(c, s, i, rcs[0]), i + 1, rcs[1..]);
    }
  }

  lemma HangingRun(c: Config, buf: seq<Byte>) returns (rcs: seq<int>, es: seq<Event>, t: State)
    requires c.Valid() && c.mode.SparseBdev? && CanHang(c) && |buf| == c.unit
    ensures Execution(c, buf, false, rcs, es, t) && Stuck(t) && !t.Halted()
  {
    hide Run, Config.Start, Config.ValidSparse, Inv, Find;
    rcs := seq(c.depth, _ => 0);
    var s0 := Fresh(c, buf, false);
    var s := Started(c, buf, false, rcs);
    StartUp(c, buf, false, rcs);
    var s1 := TargetSeek(c, s0, 0, rcs[0]);
    StartQueue(c, s1, 1, rcs[1..]);
    assert s == StartSlots(c, s1, 1, rcs[1..]);
    DataAhead(c);
    es, t := RoundHangs(c, s);
  }

  lemma DataAhead(c: Config)
    requires HasData(c) && c.End() <= |c.hole|
    ensures Find(c.hole, c.Start(), false) < c.End()
  {
    hide Config.Start;
    var p: nat :| c.Start() <= p < c.End() && !c.hole[p];
  }

  /** Some run without error or interrupt gets stuck. */
  ghost predicate HangsCalm(c: Config) {
    exists buf: seq<Byte>, interrupted: bool, rcs: seq<int>, es: seq<Event>, t: State ::
      Execution(c, buf, interrupted, rcs, es, t) && Stuck(t) && !t.Halted()
  }

  /** A sparse copy from a block device can hang without error or interrupt if and only if it has at least three
      slots, there is data to copy, and the input ends in a hole. */
  lemma HangCharacterization(c: Config)
    requires c.Valid() && c.mode.SparseBdev?
    ensures HangsCalm(c) <==> CanHang(c)
  {
    hide Execution, Stuck, CanHang;
    if CanHang(c) {
      var rcs, es, t := HangingRun(c, seq(c.unit, _ => 0));
    } else {
      forall buf: seq<Byte>, interrupted: bool, rcs: seq<int>, es: seq<Event>, t: State
        | Execution(c, buf, interrupted, rcs, es, t)
        ensures Stuck(t) ==> t.Halted()
      {
        NoHang(c, buf, interrupted, rcs, es, t);
      }
    }
  }
}
