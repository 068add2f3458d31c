/**
 After an error or an interrupt the copy engine stops submitting and waits for what is in flight. A seek that
 completes then is never counted down, so the program ends only if no seek was in flight when it halted.
 */
module DdHalt {
  import opened Basics
  import opened Arith
  import opened DdModel
  import opened DdData
  import opened DdSteps
  import opened DdCount
  import opened DdProgress
  import opened DdTheorems
  import opened DdComplete
  import opened DdDeadlock

  function InPipeline(io: Io): nat { if io.Active() then 1 else 0 }

  /** A halted job whose count will reach zero: chunks are in flight and nothing else is counted. */
  ghost predicate WindingDown(s: State) { s.outstanding == Sum(s.ios, InPipeline) > 0 }

  ghost predicate HasChunk(s: State) { exists i :: 0 <= i < |s.ios| && s.ios[i].Active() }

  lemma {:induction false} SeeksCount(ios: seq<Io>)
    ensures Sum(ios, InPipeline) <= Sum(ios, Busy)
    ensures Sum(ios, InPipeline) == Sum(ios, Busy) <==> forall i :: 0 <= i < |ios| ==> !ios[i].Seeking()
  {
    if ios != [] {
      SeeksCount(ios[1..]);
      assert forall i :: 0 < i < |ios| ==> ios[i] == ios[1..][i - 1];
      assert forall i :: 0 <= i < |ios| - 1 ==> ios[1..][i] == ios[i + 1];
    }
  }

  /** A chunk that completes in a halted job leaves the pipeline and nothing is submitted in its place. */
  lemma HaltedChunkDone(c: Config, s: State, i: nat, res: int, rc: int, rcNext: int)
    requires s.Halted() && i < |s.ios| && s.ios[i].Active()
    ensures var t := CompletePoll(c, s, i, res, rc, rcNext);
      && t.Halted() && |t.ios| == |s.ios| && t.ios == s.ios[i := t.ios[i]] && !t.ios[i].InFlight()
      && t.outstanding == s.outstanding - 1
      && t.exits == if t.outstanding == 0 then s.exits + [t.error] else s.exits
  {
    hide Find, Config.Start, Config.WriteStart, Config.Aligned;
  }

  /** The job keeps winding down until dd_exit, and a job that does not wind down never will. */
  ghost predicate Follows(s: State, t: State) {
    && t.Halted()
    && (WindingDown(s) ==> t.exits != [] || WindingDown(t))
    && (!WindingDown(s) ==> t.exits == [] && !WindingDown(t))
  }

  lemma ChunkDoneFollows(c: Config, s: State, i: nat, res: int, rc: int, rcNext: int)
    requires CountInv(c, s) && s.Halted() && s.exits == [] && i < |s.ios| && s.ios[i].Active()
    ensures Follows(s, CompletePoll(c, s, i, res, rc, rcNext))
  {
    hide CompletePoll;
    HaltedChunkDone(c, s, i, res, rc, rcNext);
    SumAtLeast(s.ios, i, InPipeline);
    SumUpdate(s.ios, i, CompletePoll(c, s, i, res, rc, rcNext).ios[i], InPipeline);
    PipelineCounted(c, s);
  }

  lemma SeekDoneFollows(c: Config, s: State, i: nat, rc: int, rcNext: int)
    requires CountInv(c, s) && SeekInv(c, s) && s.Halted() && s.exits == [] && i < |s.ios| && s.ios[i].Seeking()
    ensures Follows(s, CompletePoll(c, s, i, 0, rc, rcNext))
  {
    hide CompletePoll, CountInv, SeekInv;
    SeekStrands(c, s, i);
    HaltedSeekDone(c, s, i, rc, rcNext);
    SumUpdate(s.ios, i, Dequeue(s, i).ios[i], InPipeline);
    CompletionIsCounted(c, s, i);
    PipelineCounted(c, s);
  }

  lemma HaltedStep(c: Config, s: State, e: Event)
    requires c.Valid() && Inv(c, s) && s.Halted() && Enabled(s, e)
    ensures Follows(s, Step(c, s, e))
  {
    hide DataInv, SeekInv, CountInv, ExitInv, AccountInv, Config.Valid, CompletePoll, RoundUp, Config.At;
    match e
    case Device(i) => SumUpdate(s.ios, i, Transfer(c, s, i).ios[i], InPipeline);
    case Complete(i, res, rc, rcNext) =>
      if s.ios[i].Active() {
        ChunkDoneFollows(c, s, i, res, rc, rcNext);
      } else {
        SeekDoneFollows(c, s, i, rc, rcNext);
      }
    case _ =>
  }

  lemma PipelineCounted(c: Config, s: State)
    requires CountInv(c, s)
    ensures Sum(s.ios, InPipeline) <= s.outstanding
    ensures s.outstanding == Sum(s.ios, InPipeline) ==> forall i :: 0 <= i < |s.ios| ==> !s.ios[i].Seeking()
  {
    SeeksCount(s.ios);
  }

  lemma {:induction false} HaltedRun(c: Config, s: State, es: seq<Event>, t: State)
    requires c.Valid() && Inv(c, s) && s.Halted() && s.exits == [] && Run(c, s, es, t)
    ensures Follows(s, t)
    decreases |es|
  {
    hide Inv, Step, WindingDown, Config.Valid;
    if es != [] {
      StepKeeps(c, s, es[0]);
      HaltedStep(c, s, es[0]);
      if Step(c, s, es[0]).exits == [] {
        HaltedRun(c, Step(c, s, es[0]), es[1..], t);
      }
    }
  }

  /** From every state some continuation reaches dd_exit or gets stuck. */
  lemma {:induction false} RunDown(c: Config, s: State) returns (es: seq<Event>, t: State)
    requires c.Valid() && Inv(c, s)
    ensures Run(c, s, es, t) && (t.exits != [] || Stuck(t))
    decreases Work(c, s)
  {
    hide Inv, Step, Work, Config.Valid;
    if s.exits != [] || Stuck(s) {
      es, t := [], s;
    } else {
      var i :| 0 <= i < |s.ios| && s.ios[i].InFlight();
      var e := if s.ios[i].applied then Complete(i, 0, 0, 0) else Device(i);
      StepKeeps(c, s, e);
      WorkDrops(c, s, e);
      var rest, u := RunDown(c, Step(c, s, e));
      es, t := [e] + rest, u;
      assert es[1..] == rest;
    }
  }

  /** Some continuation ends the program. */
  ghost predicate CanEnd(c: Config, s: State) { exists es: seq<Event>, t: State :: Run(c, s, es, t) && t.exits != [] }

  /** Some continuation gets stuck. */
  ghost predicate CanStick(c: Config, s: State) { exists es: seq<Event>, t: State :: Run(c, s, es, t) && Stuck(t) }

  /** Whether a halted job ends is settled: it is bound to end, or bound never to. */
  lemma HaltedEnds(c: Config, s: State)
    requires c.Valid() && Inv(c, s) && s.Halted() && s.exits == []
    ensures CanEnd(c, s) <==> WindingDown(s)
    ensures CanStick(c, s) <==> !WindingDown(s)
  {
    hide Inv, Run, Config.Valid;
    var es0, t0 := RunDown(c, s);
    HaltedRun(c, s, es0, t0);
    NotStuck(t0);
    forall es: seq<Event>, t: State | Run(c, s, es, t)
      ensures t.exits != [] ==> WindingDown(s)
      ensures Stuck(t) ==> !WindingDown(s)
    {
      HaltedRun(c, s, es, t);
      NotStuck(t);
    }
  }

  lemma NotStuck(t: State)
    ensures WindingDown(t) ==> !Stuck(t)
  {
    SumZero(t.ios, InPipeline);
    if Stuck(t) {
      assert forall i :: 0 <= i < |t.ios| ==> InPipeline(t.ios[i]) == 0;
    }
  }

  /** The job halts now: it will wind down if and only if chunks are in flight and no seek is. */
  lemma HaltMoment(c: Config, s: State, e: Event)
    requires c.Valid() && Inv(c, s) && Enabled(s, e) && !s.Halted()
    ensures WindingDown(Step(c, s, e)) <==> HasChunk(Step(c, s, e)) && NoSeek(Step(c, s, e))
  {
    hide DataInv, SeekInv, ExitInv, AccountInv, Config.Valid, Step;
    var t := Step(c, s, e);
    StepKeepsCount(c, s, e);
    SeeksCount(t.ios);
    SumZero(t.ios, InPipeline);
    if HasChunk(t) {
      var i :| 0 <= i < |t.ios| && t.ios[i].Active();
      assert InPipeline(t.ios[i]) == 1;
    } else {
      assert forall i :: 0 <= i < |t.ios| ==> InPipeline(t.ios[i]) == 0;
    }
  }

  /** An error or interrupt that does not end the program at once lets it end if and only if a chunk is in flight and
      no seek is; otherwise no continuation ever calls dd_exit. */
  lemma HaltedRunEnds(c: Config, buf: seq<Byte>, interrupted: bool, rcs: seq<int>, es: seq<Event>, s: State, e: Event)
    requires Execution(c, buf, interrupted, rcs, es, s) && !s.Halted() && Enabled(s, e)
    requires Step(c, s, e).Halted() && Step(c, s, e).exits == []
    ensures CanEnd(c, Step(c, s, e)) <==> HasChunk(Step(c, s, e)) && NoSeek(Step(c, s, e))
    ensures CanStick(c, Step(c, s, e)) <==> !(HasChunk(Step(c, s, e)) && NoSeek(Step(c, s, e)))
  {
    hide Run, Started, Inv, Step, Config.Valid;
    ExecutionInv(c, buf, interrupted, rcs, es, s);
    StepKeeps(c, s, e);
    HaltMoment(c, s, e);
    HaltedEnds(c, Step(c, s, e));
  }

  // ---- jobs ----

  /** Some run gets stuck, with or without an error or interrupt. */
  ghost predicate Hangs(c: Config) {
    exists buf: seq<Byte>, interrupted: bool, rcs: seq<int>, es: seq<Event>, t: State ::
      Execution(c, buf, interrupted, rcs, es, t) && Stuck(t)
  }

  /** One interrupt during the first seek is enough: the program never ends. */
  lemma InterruptedSeek(c: Config, buf: seq<Byte>) returns (rcs: seq<int>, es: seq<Event>, t: State)
    requires c.Valid() && c.mode.SparseBdev? && c.copySize > 0 && c.depth > 0 && |buf| == c.unit
    ensures Execution(c, buf, false, rcs, es, t) && Stuck(t)
    ensures es == [Interrupt, Device(0), Complete(0, 0, 0, 0)]
  {
    hide Run, Config.Start, Config.ValidSparse, Inv, Find, StartSlots;
    rcs := seq(c.depth, _ => 0);
    var s := Started(c, buf, false, rcs);
    StartUp(c, buf, false, rcs);
    FirstSeek(c, buf, rcs);
    RunNil(c, s);
    var es1, s1 := Then(c, s, [], s, Interrupt);
    var es2, s2 := Then(c, s, es1, s1, Device(0));
    var es3, s3 := Then(c, s, es2, s2, Complete(0, 0, 0, 0));
    es, t := es3, s3;
  }

  lemma FirstSeek(c: Config, buf: seq<Byte>, rcs: seq<int>)
    requires c.mode.SparseBdev? && c.copySize > 0 && c.depth > 0
    requires |rcs| == c.depth && forall k :: 0 <= k < |rcs| ==> rcs[k] == 0
    ensures var s := Started(c, buf, false, rcs);
      && Calm(s) && s.outstanding == 1 && |s.ios| == c.depth && s.pos == c.Start() && |s.queue| == c.depth && s.queue[0] == 0
      && s.ios[0].stage == SeekingData(c.Start()) && !s.ios[0].applied && OthersWait(s, 0, 0)
  {
    hide Config.Start;
    var s1 := TargetSeek(c, Fresh(c, buf, false), 0, rcs[0]);
    StartQueue(c, s1, 1, rcs[1..]);
  }

  /** Only sparse copies from block devices can hang, and among them every job with something to copy can. */
  lemma HangsIff(c: Config)
    requires c.Valid() && c.depth > 0
    ensures Hangs(c) <==> c.mode.SparseBdev? && c.copySize > 0
  {
    hide Execution, Stuck, Config.Valid;
    if c.mode.SparseBdev? && c.copySize > 0 {
      var rcs, es, t := InterruptedSeek(c, seq(c.unit, _ => 0));
    } else {
      forall buf: seq<Byte>, interrupted: bool, rcs: seq<int>, es: seq<Event>, t: State
        | Execution(c, buf, interrupted, rcs, es, t)
        ensures !Stuck(t)
      {
        if c.mode.SparseBdev? {
          NothingToCopy(c, buf, interrupted, rcs, es, t);
        } else {
          NeverStuck(c, buf, interrupted, rcs, es, t);
        }
      }
    }
  }

  lemma NeverStuck(c: Config, buf: seq<Byte>, interrupted: bool, rcs: seq<int>, es: seq<Event>, t: State)
    requires Execution(c, buf, interrupted, rcs, es, t) && !c.mode.SparseBdev?
    ensures !Stuck(t)
  {
    hide Run, Started;
    if t.exits == [] {
      Progress(c, buf, interrupted, rcs, es, t);
    }
  }

  lemma NothingToCopy(c: Config, buf: seq<Byte>, interrupted: bool, rcs: seq<int>, es: seq<Event>, t: State)
    requires Execution(c, buf, interrupted, rcs, es, t) && c.mode.SparseBdev? && c.copySize == 0
    ensures !Stuck(t)
  {
    StartUpExits(c, buf, interrupted, rcs);
  }
}
