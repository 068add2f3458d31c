/** Total correctness of the copy engine: runs without failures can always be finished and end in the copy. */
module DdComplete {
  import opened Basics
  import opened Arith
  import opened DdModel
  import opened DdData
  import opened DdSteps
  import opened DdCount
  import opened DdProgress
  import opened DdTheorems

  /** Nothing fails and nobody interrupts. */
  predicate Clean(e: Event) {
    match e
    case Device(_) => true
    case Complete(_, res, rc, rcNext) => res == 0 && rc == 0 && rcNext == 0
    case Interrupt => false
    case StatusPoll => true
  }

  lemma PopulateClean(c: Config, s: State, i: nat)
    requires i < |s.ios| && !s.Halted()
    ensures !PopulateBuffer(c, s, i, 0).Halted()
  {
    hide Config.Start, Config.Aligned;
  }

  lemma SeekClean(c: Config, s: State, i: nat)
    requires i < |s.ios| && !s.Halted()
    ensures !TargetSeek(c, s, i, 0).Halted()
  {
    hide PopulateBuffer, Config.Start, Config.WriteStart, Find;
    PopulateClean(c, s, i);
    var data := Find(c.hole, s.pos, false);
    PopulateClean(c, Extent(c, s, i, data, Find(c.hole, data, true)), i);
  }

  lemma StepClean(c: Config, s: State, e: Event)
    requires Enabled(s, e) && Clean(e) && !s.Halted()
    ensures !Step(c, s, e).Halted()
  {
    hide PopulateBuffer, TargetSeek, Config.Start, Config.WriteStart, Find, RoundUp;
    match e
    case Complete(i, _, _, _) =>
      SeekClean(c, Released(s, i, 0), i);
      if s.ios[i].stage.SeekingHole? {
        PopulateClean(c, HoleFound(c, s, i, Find(c.hole, s.ios[i].stage.from, true)), i);
      }
    case _ =>
  }

  lemma {:induction false} RunClean(c: Config, s: State, es: seq<Event>, t: State)
    requires Run(c, s, es, t) && !s.Halted() && forall k :: 0 <= k < |es| ==> Clean(es[k])
    ensures !t.Halted()
    decreases |es|
  {
    hide Step;
    if es != [] {
      StepClean(c, s, es[0]);
      RunClean(c, Step(c, s, es[0]), es[1..], t);
    }
  }

  lemma {:induction false} StartClean(c: Config, s: State, i: nat, rcs: seq<int>)
    requires i + |rcs| == |s.ios| && !s.Halted() && forall k :: 0 <= k < |rcs| ==> rcs[k] == 0
    ensures !StartSlots(c, s, i, rcs).Halted()
    decreases |rcs|
  {
    hide TargetSeek;
    if rcs != [] {
      SeekClean(c, s, i);
      StartClean(c, TargetSeek(c, s, i, 0), i + 1, rcs[1..]);
    }
  }

  /** Every run in which nothing fails and nobody interrupts, followed as far as it goes, ends in dd_exit(0) with the
      slice copy performed. */
  lemma CleanRunsCopy(c: Config, buf: seq<Byte>, rcs: seq<int>, es: seq<Event>, t: State)
    requires Execution(c, buf, false, rcs, es, t) && !c.mode.SparseBdev?
    requires (forall k :: 0 <= k < |rcs| ==> rcs[k] == 0) && (forall k :: 0 <= k < |es| ==> Clean(es[k]))
    requires forall i: nat :: !Enabled(t, Device(i)) && !Enabled(t, Complete(i, 0, 0, 0))
    ensures t.exits != [] && t.output == SliceCopy(c)
    ensures forall k :: 0 <= k < |t.exits| ==> t.exits[k] == 0
  {
    hide Run, Enabled, SliceCopy;
    StartClean(c, Fresh(c, buf, false), 0, rcs);
    RunClean(c, Started(c, buf, false, rcs), es, t);
    if t.exits == [] {
      Progress(c, buf, false, rcs, es, t);
    }
    FinishedRunIsSliceCopy(c, buf, false, rcs, es, t);
  }

  /** From any state of a clean job some clean continuation reaches dd_exit. */
  lemma {:induction false} CanFinish(c: Config, s: State) returns (es: seq<Event>, t: State)
    requires c.Valid() && !c.mode.SparseBdev? && Inv(c, s) && Lively(s) && !s.Halted()
    ensures Run(c, s, es, t) && t.exits != [] && forall k :: 0 <= k < |es| ==> Clean(es[k])
    decreases Work(c, s)
  {
    hide Inv, Step, Enabled, Work;
    if s.exits != [] {
      es, t := [], s;
    } else {
      var e := Next(c, s);
      StepKeeps(c, s, e);
      StepLively(c, s, e);
      StepClean(c, s, e);
      WorkDrops(c, s, e);
      var rest, u := CanFinish(c, Step(c, s, e));
      es, t := [e] + rest, u;
      assert es[1..] == rest;
    }
  }

  lemma Next(c: Config, s: State) returns (e: Event)
    requires c.Valid() && !c.mode.SparseBdev? && Inv(c, s) && Lively(s) && s.exits == []
    ensures Enabled(s, e) && Clean(e) && (e.Device? || e.Complete?)
  {
    hide DataInv, SeekInv, ExitInv, AccountInv;
    SumZero(s.ios, Busy);
    var i :| 0 <= i < |s.ios| && Busy(s.ios[i]) != 0;
    e := if s.ios[i].applied then Complete(i, 0, 0, 0) else Device(i);
  }

  lemma WorkDrops(c: Config, s: State, e: Event)
    requires c.Valid() && Inv(c, s) && Enabled(s, e) && (e.Device? || e.Complete?)
    ensures 0 <= Work(c, Step(c, s, e)) < Work(c, s)
  {
    hide SeekInv, CountInv, ExitInv, AccountInv, SlotsOk, Separate, Outside, Mixed, Untouched, Covered, Step;
    StepWork(c, s, e);
    StepKeeps(c, s, e);
  }

  /** Every valid dense job and every valid sparse job from a file has a run that completes the copy. */
  lemma EveryJobCanFinish(c: Config, buf: seq<Byte>) returns (rcs: seq<int>, es: seq<Event>, t: State)
    requires c.Valid() && !c.mode.SparseBdev? && c.depth > 0 && |buf| == c.unit
    ensures Execution(c, buf, false, rcs, es, t) && t.exits != [] && t.output == SliceCopy(c)
  {
    hide Inv, Run, StartSlots, SliceCopy, Config.Valid;
    rcs := seq(c.depth, _ => 0);
    StartUp(c, buf, false, rcs);
    StartClean(c, Fresh(c, buf, false), 0, rcs);
    es, t := CanFinish(c, Started(c, buf, false, rcs));
    RunClean(c, Started(c, buf, false, rcs), es, t);
    FinishedRunIsSliceCopy(c, buf, false, rcs, es, t);
  }
}
