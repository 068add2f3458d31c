/** What the copy engine guarantees over whole runs. */
module DdTheorems {
  import opened Basics
  import opened Arith
  import opened DdModel
  import opened DdData
  import opened DdSteps
  import opened DdCount
  import opened DdProgress

  ghost predicate Inv(c: Config, s: State) {
    DataInv(c, s) && SeekInv(c, s) && CountInv(c, s) && ExitInv(c, s) && AccountInv(c, s)
  }

  lemma StepKeeps(c: Config, s: State, e: Event)
    requires c.Valid() && Inv(c, s) && Enabled(s, e)
    ensures Inv(c, Step(c, s, e))
  {
    hide DataInv, SeekInv, CountInv, ExitInv, AccountInv, Step;
    StepKeepsData(c, s, e);
    StepKeepsQueue(c, s, e);
    StepKeepsCount(c, s, e);
    StepExits(c, s, e);
    StepAccounts(c, s, e);
  }

  // ---- start-up ----

  /** The job when dd_run returns: fresh slots with buffer contents `buf`, submissions answering `rcs`. */
  function Started(c: Config, buf: seq<Byte>, interrupted: bool, rcs: seq<int>): State
    requires |rcs| == c.depth
  {
    StartSlots(c, Fresh(c, buf, interrupted), 0, rcs)
  }

  lemma FreshInv(c: Config, buf: seq<Byte>, interrupted: bool)
    requires c.Valid() && |buf| == c.unit
    ensures Inv(c, Fresh(c, buf, interrupted))
  {
    var s := Fresh(c, buf, interrupted);
    SumZero(s.ios, Busy);
    SumZero(s.ios, Unwritten);
  }

  /** Start-up either puts something in flight and never calls dd_exit, or calls it for every slot. */
  ghost predicate StartInv(c: Config, s: State, i: nat) {
    && Inv(c, s)
    && (forall j :: i <= j < |s.ios| ==> s.ios[j].stage.Idle?)
    && (if s.outstanding > 0 then s.exits == []
        else |s.exits| == i && (i > 0 ==> StartStopped(c, s)))
  }

  ghost predicate StartStopped(c: Config, s: State) {
    || s.Halted() || s.pos == c.End()
    || (c.mode.SparseFile? && Find(c.hole, s.pos, false) >= |c.hole|)
  }

  /** Once start-up has nothing to do, every further slot just calls dd_exit again. */
  lemma StoppedSlot(c: Config, s: State, i: nat, rc: int)
    requires c.Valid() && PosOk(c, s.pos) && i < |s.ios| && s.outstanding == 0 && StartStopped(c, s)
    requires ExitInv(c, s)
    ensures var t := TargetSeek(c, s, i, rc);
      && t.outstanding == 0 && |t.exits| == |s.exits| + 1 && StartStopped(c, t) && ExitInv(c, t)
  {
    hide Config.Start, Config.WriteStart, Config.Aligned, Config.ValidSparse, Find;
  }

  /** The first slot either gets something going or ends the program. */
  lemma FirstSlot(c: Config, s: State, i: nat, rc: int)
    requires c.Valid() && DataInv(c, s) && ExitInv(c, s) && i < |s.ios| && s.ios[i].stage.Idle?
    requires s.outstanding == 0 && s.exits == [] && s.queue == []
    ensures var t := TargetSeek(c, s, i, rc);
      && ExitInv(c, t)
      && (if t.outstanding > 0 then t.exits == [] else |t.exits| == 1 && StartStopped(c, t))
  {
    hide Config.Start, Config.WriteStart, Config.Aligned, PopulateBuffer, Find;
    hide SlotsOk, Separate, Outside, Mixed, Untouched, Covered, Config.ValidSparse;
    SeekLaunches(c, s, i, rc);
    if c.mode.SparseBdev? {
    } else {
      assert Launched(c, s, TargetSeek(c, s, i, rc), i);
    }
  }

  lemma StartOne(c: Config, s: State, i: nat, rc: int)
    requires c.Valid() && StartInv(c, s, i) && i < |s.ios|
    ensures StartInv(c, TargetSeek(c, s, i, rc), i + 1)
    ensures i > 0 ==> (TargetSeek(c, s, i, rc).outstanding > 0 <==> s.outstanding > 0)
  {
    hide DataInv, SeekInv, CountInv, AccountInv, TargetSeek, Config.Valid, Finished;
    var t := TargetSeek(c, s, i, rc);
    SeekKeeps(c, s, i, rc);
    SeekKeepsQueue(c, s, i, rc);
    SeekKeepsCount(c, s, i, rc);
    SeekAccounts(c, s, i, rc);
    SeekTouchesOne(c, s, i, rc);
    NonNegative(c, s);
    if s.outstanding == 0 {
      if i > 0 {
        DataPos(c, s);
        StoppedSlot(c, s, i, rc);
      } else {
        IdleQueue(c, s);
        FirstSlot(c, s, i, rc);
      }
    } else {
      RunningSlot(c, s, i, rc);
    }
  }

  lemma NonNegative(c: Config, s: State)
    requires CountInv(c, s)
    ensures s.outstanding >= 0
  {
  }

  lemma IdleQueue(c: Config, s: State)
    requires SeekInv(c, s) && forall j :: 0 <= j < |s.ios| ==> s.ios[j].stage.Idle?
    ensures s.queue == []
  {
    if s.queue != [] {
      HeadIsQueued(c, s);
    }
  }

  lemma HeadIsQueued(c: Config, s: State)
    requires SeekInv(c, s) && s.queue != []
    ensures s.queue[0] < |s.ios| && !s.ios[s.queue[0]].stage.Idle?
  {
    assert s.queue[0] in s.queue;
  }

  lemma SeekTouchesOne(c: Config, s: State, i: nat, rc: int)
    requires i < |s.ios|
    ensures forall j :: 0 <= j < |s.ios| && j != i ==> TargetSeek(c, s, i, rc).ios[j] == s.ios[j]
  {
    hide Config.Start, Config.WriteStart, Config.Aligned, Find;
  }

  lemma RunningSlot(c: Config, s: State, i: nat, rc: int)
    requires c.Valid() && DataInv(c, s) && s.outstanding > 0 && s.exits == []
    requires i < |s.ios| && s.ios[i].stage.Idle?
    ensures var t := TargetSeek(c, s, i, rc); t.outstanding > 0 && t.exits == [] && ExitInv(c, t)
  {
    hide Config.Start, Config.WriteStart, Config.Aligned, Find, DataInv, Config.Valid;
  }

  lemma {:induction false} StartLoop(c: Config, s: State, i: nat, rcs: seq<int>)
    requires c.Valid() && StartInv(c, s, i) && i + |rcs| == |s.ios|
    ensures StartInv(c, StartSlots(c, s, i, rcs), |s.ios|)
    ensures |StartSlots(c, s, i, rcs).ios| == |s.ios|
    ensures i > 0 ==> (StartSlots(c, s, i, rcs).outstanding > 0 <==> s.outstanding > 0)
    decreases |rcs|
  {
    hide TargetSeek, StartInv;
    if rcs != [] {
      StartOne(c, s, i, rcs[0]);
      StartLoop(c, TargetSeek(c, s, i, rcs[0]), i + 1, rcs[1..]);
    }
  }

  lemma StartUp(c: Config, buf: seq<Byte>, interrupted: bool, rcs: seq<int>)
    requires c.Valid() && |buf| == c.unit && |rcs| == c.depth && c.depth > 0
    ensures var s := Started(c, buf, interrupted, rcs);
      && Inv(c, s) && Lively(s)
      && (s.exits == [] || |s.exits| == c.depth)
  {
    FreshInv(c, buf, interrupted);
    StartLoop(c, Fresh(c, buf, interrupted), 0, rcs);
  }

  /** There is something to copy, nobody interrupted and the first submission is accepted. */
  ghost predicate Starts(c: Config, interrupted: bool, rc: int) {
    && c.copySize > 0 && !interrupted && rc == 0
    && (c.mode.SparseFile? ==> Find(c.hole, c.Start(), false) < |c.hole|)
  }

  /** Start-up puts something in flight exactly when the first slot can start; otherwise it calls dd_exit once per
      slot. */
  lemma StartUpExits(c: Config, buf: seq<Byte>, interrupted: bool, rcs: seq<int>)
    requires c.Valid() && |buf| == c.unit && |rcs| == c.depth && c.depth > 0
    ensures var s := Started(c, buf, interrupted, rcs);
      if Starts(c, interrupted, rcs[0]) then s.exits == [] && s.outstanding > 0 else |s.exits| == c.depth
  {
    hide Inv, TargetSeek;
    var s0 := Fresh(c, buf, interrupted);
    FreshInv(c, buf, interrupted);
    StartOne(c, s0, 0, rcs[0]);
    FirstStarts(c, buf, interrupted, rcs[0]);
    StartLoop(c, TargetSeek(c, s0, 0, rcs[0]), 1, rcs[1..]);
  }

  lemma FirstStarts(c: Config, buf: seq<Byte>, interrupted: bool, rc: int)
    requires c.Valid() && c.depth > 0
    ensures TargetSeek(c, Fresh(c, buf, interrupted), 0, rc).outstanding > 0 <==> Starts(c, interrupted, rc)
  {
    hide Config.Start, Config.WriteStart, Config.Aligned;
  }

  // ---- whole runs ----

  /** `t` is reached by the events `es` after a start-up of the program. */
  ghost predicate Execution(c: Config, buf: seq<Byte>, interrupted: bool, rcs: seq<int>, es: seq<Event>, t: State) {
    && c.Valid() && c.depth > 0 && |buf| == c.unit && |rcs| == c.depth
    && Run(c, Started(c, buf, interrupted, rcs), es, t)
  }

  lemma {:induction false} RunKeeps(c: Config, s: State, es: seq<Event>, t: State)
    requires c.Valid() && Inv(c, s) && Run(c, s, es, t)
    ensures Inv(c, t)
    ensures !c.mode.SparseBdev? && Lively(s) ==> Lively(t)
    decreases |es|
  {
    hide Inv, Step;
    if es != [] {
      StepKeeps(c, s, es[0]);
      StepLively(c, s, es[0]);
      RunKeeps(c, Step(c, s, es[0]), es[1..], t);
    }
  }

  lemma StepLively(c: Config, s: State, e: Event)
    requires c.Valid() && Inv(c, s) && Enabled(s, e)
    ensures !c.mode.SparseBdev? && Lively(s) ==> Lively(Step(c, s, e))
  {
    hide DataInv, SeekInv, CountInv, ExitInv, AccountInv, Step, Lively;
    StepExits(c, s, e);
  }

  lemma ExecutionInv(c: Config, buf: seq<Byte>, interrupted: bool, rcs: seq<int>, es: seq<Event>, t: State)
    requires Execution(c, buf, interrupted, rcs, es, t)
    ensures Inv(c, t)
    ensures !c.mode.SparseBdev? ==> Lively(t)
  {
    hide Inv, Started;
    StartUp(c, buf, interrupted, rcs);
    RunKeeps(c, Started(c, buf, interrupted, rcs), es, t);
  }

  /** At every moment of every run, failed and interrupted ones included, the bytes outside the target
      region are the old ones and the bytes inside are old or already copied. */
  lemma CopyIsContained(c: Config, buf: seq<Byte>, interrupted: bool, rcs: seq<int>, es: seq<Event>, t: State)
    requires Execution(c, buf, interrupted, rcs, es, t)
    ensures |t.output| == |c.output0|
    ensures forall q :: 0 <= q < |t.output| && !(c.WriteStart() <= q < c.WriteStart() + c.copySize) ==>
              t.output[q] == c.output0[q]
    ensures forall p: nat :: c.Start() <= p < c.End() ==>
              t.output[c.At(p)] == c.input[p] || t.output[c.At(p)] == c.output0[c.At(p)]
  {
    hide Run, Started, SeekInv, CountInv, ExitInv, AccountInv, SlotsOk, Separate, Covered, LengthsOk;
    ExecutionInv(c, buf, interrupted, rcs, es, t);
  }

  /** The plain slice copy that a finished run must amount to. */
  function SliceCopy(c: Config): seq<Byte>
    requires c.End() <= |c.input| && c.WriteStart() + c.copySize <= |c.output0|
  {
    c.output0[..c.WriteStart()] + c.input[c.Start()..c.End()] + c.output0[c.WriteStart() + c.copySize..]
  }

  lemma AllIdle(c: Config, s: State)
    requires CountInv(c, s) && s.outstanding == 0
    ensures forall i :: 0 <= i < |s.ios| ==> !s.ios[i].InFlight()
  {
    SumZero(s.ios, Busy);
    forall i | 0 <= i < |s.ios| ensures !s.ios[i].InFlight() {
      assert Busy(s.ios[i]) == 0;
    }
  }

  lemma FinishedBytes(c: Config, s: State)
    requires c.Valid() && DataInv(c, s) && CountInv(c, s) && ExitInv(c, s) && s.exits != [] && !s.Halted()
    ensures forall p: nat :: c.Start() <= p < c.End() ==> 0 <= c.At(p) < |s.output| && s.output[c.At(p)] == c.input[p]
    ensures c.fileOutput && c.copySize > 0 ==> s.size >= c.WriteStart() + c.copySize
  {
    hide SlotsOk, Separate, Mixed, LengthsOk, CountInv, Config.Start, Config.WriteStart, Config.Aligned;
    AllIdle(c, s);
    forall p: nat | c.Start() <= p < c.End()
      ensures 0 <= c.At(p) < |s.output| && s.output[c.At(p)] == c.input[p]
      ensures p < s.pos ==> Done(c, s.output, s.size, p)
    {
      if p < s.pos {
        assert !Held(s.ios, p);
      } else {
        assert c.hole[p];
      }
    }
    if s.pos == c.End() > c.Start() {
      assert Done(c, s.output, s.size, c.End() - 1);
    }
  }

  lemma CleanExit(c: Config, s: State)
    requires c.Valid() && Inv(c, s) && s.exits != [] && !s.Halted()
    ensures s.output == SliceCopy(c)
    ensures c.fileOutput && c.copySize > 0 ==> s.size >= c.WriteStart() + c.copySize
    ensures forall k :: 0 <= k < |s.exits| ==> s.exits[k] == 0
  {
    hide SeekInv, CountInv, AccountInv, SlotsOk, Separate, Covered, LengthsOk, Finished;
    FinishedBytes(c, s);
    forall q | 0 <= q < |s.output| ensures s.output[q] == SliceCopy(c)[q] {
      if c.WriteStart() <= q < c.WriteStart() + c.copySize {
        var p: nat := c.Start() + (q - c.WriteStart());
        assert c.At(p) == q;
      }
    }
  }

  /** A run that ends without error or interrupt has copied the region, byte for byte, and nothing else:
      for every queue depth, every interleaving, dense or sparse. */
  lemma FinishedRunIsSliceCopy(c: Config, buf: seq<Byte>, interrupted: bool, rcs: seq<int>, es: seq<Event>, t: State)
    requires Execution(c, buf, interrupted, rcs, es, t) && t.exits != [] && !t.Halted()
    ensures t.output == SliceCopy(c)
    ensures c.fileOutput && c.copySize > 0 ==> t.size >= c.WriteStart() + c.copySize
    ensures forall k :: 0 <= k < |t.exits| ==> t.exits[k] == 0
  {
    hide Run, Started, Inv, SliceCopy;
    ExecutionInv(c, buf, interrupted, rcs, es, t);
    CleanExit(c, t);
  }

  /** `outstanding` is the number of operations in flight, and dd_exit has been called exactly when it is zero. */
  lemma OutstandingIsExact(c: Config, buf: seq<Byte>, interrupted: bool, rcs: seq<int>, es: seq<Event>, t: State)
    requires Execution(c, buf, interrupted, rcs, es, t) && !c.mode.SparseBdev?
    ensures t.outstanding == Sum(t.ios, Busy)
    ensures t.exits != [] <==> t.outstanding == 0
  {
    hide Run, Started, DataInv, SeekInv, AccountInv, Finished;
    ExecutionInv(c, buf, interrupted, rcs, es, t);
  }

  /** After start-up dd_exit is called at most once. */
  lemma {:induction false} ExitsOnce(c: Config, s: State, es: seq<Event>, t: State)
    requires c.Valid() && !c.mode.SparseBdev? && Inv(c, s) && s.exits == [] && Run(c, s, es, t)
    ensures |t.exits| <= 1
    decreases |es|
  {
    hide Inv, Step, Config.Valid;
    if es != [] {
      StepKeeps(c, s, es[0]);
      StepExitsOnce(c, s, es[0]);
      if Step(c, s, es[0]).exits == [] {
        ExitsOnce(c, Step(c, s, es[0]), es[1..], t);
      }
    }
  }

  lemma StepExitsOnce(c: Config, s: State, e: Event)
    requires c.Valid() && !c.mode.SparseBdev? && Inv(c, s) && Enabled(s, e)
    ensures |Step(c, s, e).exits| <= 1
  {
    hide DataInv, CountInv, ExitInv, AccountInv, Config.Valid, TargetSeek, SeekDataDone, SeekHoleDone, RoundUp, Finished;
    match e
    case Complete(i, res, rc, rcNext) =>
      ReleasedCount(c, s, i, res);
      if s.ios[i].stage.Populating? {
        ReadLaunches(c, Released(s, i, res), i, rc);
      } else if s.ios[i].stage.Reading? {
        WriteLaunches(c, Released(s, i, res), i, rc);
      } else {
        assert s.ios[i].Seeking() ==> i in s.queue;
        ReleasedKeeps(c, s, i, res, rc, rcNext);
        SeekLaunches(c, Released(s, i, res), i, rc);
      }
    case _ =>
  }

  /** No deadlock: until dd_exit is called some transfer or completion can happen. */
  lemma Progress(c: Config, buf: seq<Byte>, interrupted: bool, rcs: seq<int>, es: seq<Event>, t: State)
    requires Execution(c, buf, interrupted, rcs, es, t) && !c.mode.SparseBdev? && t.exits == []
    ensures exists i: nat :: Enabled(t, Device(i)) || Enabled(t, Complete(i, 0, 0, 0))
  {
    hide Run, Started;
    OutstandingIsExact(c, buf, interrupted, rcs, es, t);
    SumZero(t.ios, Busy);
    var i :| 0 <= i < |t.ios| && Busy(t.ios[i]) != 0;
    assert Enabled(t, Device(i)) || Enabled(t, Complete(i, 0, 0, 0));
  }

  function Moves(es: seq<Event>): nat {
    if es == [] then 0 else (if es[0].Device? || es[0].Complete? then 1 else 0) + Moves(es[1..])
  }

  lemma {:induction false} RunUsesWork(c: Config, s: State, es: seq<Event>, t: State)
    requires c.Valid() && Inv(c, s) && Run(c, s, es, t)
    ensures Work(c, t) + Moves(es) <= Work(c, s)
    decreases |es|
  {
    hide Step, DataInv, SeekInv, CountInv, ExitInv, AccountInv, Work;
    if es != [] {
      StepKeeps(c, s, es[0]);
      StepWork(c, s, es[0]);
      RunUsesWork(c, Step(c, s, es[0]), es[1..], t);
    }
  }

  /** Every run is finite: the number of transfers and completions is bounded by the size of the copy. */
  lemma RunsAreFinite(c: Config, buf: seq<Byte>, interrupted: bool, rcs: seq<int>, es: seq<Event>, t: State)
    requires Execution(c, buf, interrupted, rcs, es, t)
    ensures Moves(es) <= 14 * c.copySize + 11 * c.depth
  {
    hide Run, Started, SeekInv, CountInv, ExitInv, AccountInv, SlotsOk, Separate, Outside, Mixed, Covered, Untouched;
    var s := Started(c, buf, interrupted, rcs);
    StartUp(c, buf, interrupted, rcs);
    RunUsesWork(c, s, es, t);
    RunKeeps(c, s, es, t);
    SumBounded(s.ios, Rank, 11);
  }

  /** At a clean finish the reported total is the number of copied bytes: all of them in dense mode,
      those outside holes in sparse mode. */
  lemma ReportedTotal(c: Config, buf: seq<Byte>, interrupted: bool, rcs: seq<int>, es: seq<Event>, t: State)
    requires Execution(c, buf, interrupted, rcs, es, t) && t.exits != [] && !t.Halted()
    ensures t.total == DataBytes(c, c.Start(), c.End())
    ensures c.mode.Dense? ==> t.total == c.copySize
  {
    hide Run, Started, SeekInv, SlotsOk, Separate, Outside, Mixed, Covered, Untouched, LengthsOk, DataBytes;
    ExecutionInv(c, buf, interrupted, rcs, es, t);
    AllIdle(c, t);
    SumZero(t.ios, Unwritten);
    DataBytesExtend(c, c.Start(), t.pos, c.End());
    DataBytesExtend(c, c.Start(), c.Start(), c.End());
    assert DataBytes(c, c.Start(), c.Start()) == 0 by {
      NoBytes(c, c.Start());
    }
  }

  lemma NoBytes(c: Config, a: nat)
    ensures DataBytes(c, a, a) == 0
  {
  }

  /** While the job runs, every byte passed by the position is finished or in the hands of exactly one slot, and no
      byte ahead of it is in any; the chunks in flight and the bytes reported so far add up to what was passed. */
  lemma EveryByteOnce(c: Config, buf: seq<Byte>, interrupted: bool, rcs: seq<int>, es: seq<Event>, t: State, p: nat)
    requires Execution(c, buf, interrupted, rcs, es, t) && !t.Halted() && c.Start() <= p < c.End()
    ensures p < t.pos ==> (0 <= c.At(p) < |t.output| && t.output[c.At(p)] == c.input[p]) || Held(t.ios, p)
    ensures p >= t.pos ==> !Held(t.ios, p)
    ensures forall i, j :: 0 <= i < |t.ios| && 0 <= j < |t.ios| && t.ios[i].Holds(p) && t.ios[j].Holds(p) ==> i == j
    ensures t.total + t.incremental + Sum(t.ios, Unwritten) == DataBytes(c, c.Start(), t.pos)
  {
    hide Run, Started, SeekInv, CountInv, ExitInv, Outside, Mixed, Untouched, LengthsOk, DataBytes;
    hide TailOk, FrontOk, Config.Aligned, Config.Start, Config.WriteStart;
    ExecutionInv(c, buf, interrupted, rcs, es, t);
    forall i, j | 0 <= i < |t.ios| && 0 <= j < |t.ios| && t.ios[i].Holds(p) && t.ios[j].Holds(p)
      ensures i == j
    {
      assert i != j ==> Apart(t.ios[i], t.ios[j]);
    }
    forall i | 0 <= i < |t.ios| && t.ios[i].Holds(p) ensures p < t.pos {
      assert SlotOk(c, t.pos, t.output, t.size, t.ios[i]);
    }
  }

  /** The whole-block ranges of two slots in the pipeline never overlap and fit the slots' buffers. */
  lemma WriteRangesApart(c: Config, buf: seq<Byte>, interrupted: bool, rcs: seq<int>, es: seq<Event>, t: State, i: nat, j: nat)
    requires Execution(c, buf, interrupted, rcs, es, t)
    requires i < |t.ios| && j < |t.ios| && i != j && t.ios[i].Active() && t.ios[j].Active()
    ensures Whole(c, t.ios[i]) <= |t.ios[i].buf|
    ensures || c.At(t.ios[i].offset) + Whole(c, t.ios[i]) <= c.At(t.ios[j].offset)
            || c.At(t.ios[j].offset) + Whole(c, t.ios[j]) <= c.At(t.ios[i].offset)
  {
    hide Run, Started, SeekInv, CountInv, ExitInv, AccountInv, Outside, Mixed, Covered, Untouched, LengthsOk;
    hide RoundUp, Config.Aligned, Config.Start, Config.WriteStart;
    ExecutionInv(c, buf, interrupted, rcs, es, t);
    assert Apart(t.ios[i], t.ios[j]);
    assert SlotOk(c, t.pos, t.output, t.size, t.ios[i]) && SlotOk(c, t.pos, t.output, t.size, t.ios[j]);
    WholeFits(c, t.pos, t.ios[i]);
    WholeFits(c, t.pos, t.ios[j]);
  }
}
