/**
 When dd_exit is called. A callback that calls it returns at once, with nothing outstanding, except in one place: after
 a refused claim the callback of a hole seek goes on to start the next seek.
 */
module DdExits {
  import opened Basics
  import opened Arith
  import opened DdModel
  import opened DdData
  import opened DdSteps
  import opened DdCount
  import opened DdProgress
  import opened DdTheorems
  import opened DdDeadlock
  import opened DdHalt

  /** Length of the chunk a slot gets from the data extent at `pos`. */
  function ClaimLength(c: Config, pos: nat): int {
    Min(Min(c.unit, Find(c.hole, pos, true) - pos), c.End() - pos)
  }

  /** The only operation in flight is a hole seek, its claim is refused, and there are a waiting slot and unread
      input left for another seek. */
  predicate Late(c: Config, s: State, e: Event) {
    && e.Complete? && e.slot < |s.ios| && s.ios[e.slot].stage.SeekingHole? && !s.Halted()
    && s.outstanding == 1 && e.rc != 0 && |s.queue| >= 2 && s.pos + ClaimLength(c, s.pos) < |c.input|
  }

  /** What a claim with something to claim does, by the answer to its submission. */
  lemma PopulateResult(c: Config, s: State, i: nat, rc: int)
    requires c.Valid() && PosOk(c, s.pos) && i < |s.ios| && s.ios[i].length > 0 && !s.Halted() && s.pos < c.End()
    ensures var t := PopulateBuffer(c, s, i, rc);
      && t.pos == s.pos + Min(s.ios[i].length, c.End() - s.pos) && t.queue == s.queue
      && (if rc == 0 then t.outstanding == s.outstanding + 1 && t.exits == s.exits && t.error == 0
          else t.outstanding == s.outstanding && t.error == rc
               && t.exits == if t.outstanding == 0 then s.exits + [rc] else s.exits)
  {
    hide Config.Aligned, Config.Start, Config.WriteStart, Find;
  }

  lemma SeekHoleDoneExact(c: Config, s: State, i: nat, rc: int, rcNext: int)
    requires c.Valid() && DataInv(c, s) && CountInv(c, s) && SeekInv(c, s) && s.exits == [] && !s.Halted()
    requires i < |s.ios| && s.ios[i].stage.SeekingHole?
    ensures Answers(c, s, Complete(i, 0, rc, rcNext), SeekHoleDone(c, s, i, s.ios[i].stage.from, rc, rcNext))
  {
    hide DataInv, Config.Valid, PopulateBuffer, PosOk, Config.Start, Config.WriteStart;
    HoleReady(c, s, i);
    DataPos(c, s);
    CompletionIsCounted(c, s, i);
    assert i in s.queue && SeekOk(c, s.pos, s.ios[i].stage);
    var s1 := HoleFound(c, s, i, Find(c.hole, s.pos, true));
    PopulateResult(c, s1, i, rc);
    PopulateShape(c, s1, i, rc);
    var s2 := PopulateBuffer(c, s1, i, rc);
    assert s2.pos == s.pos + ClaimLength(c, s.pos);
    assert s2.queue == s.queue[1..];
    if s2.queue != [] { assert s.queue[1] < |s.ios|; }
  }

  /** `t` answers the event `e`: nothing is submitted after dd_exit and dd_exit is called once, unless `e` is late. */
  ghost predicate Answers(c: Config, s: State, e: Event, t: State) {
    if Late(c, s, e) then
      && t.exits == [e.rc] + (if e.rcNext == 0 then [] else [e.rcNext])
      && t.outstanding == if e.rcNext == 0 then 1 else 0
    else t.exits == [] || (t.exits == [t.error] && t.outstanding == 0)
  }

  lemma SeekDataDoneExact(c: Config, s: State, i: nat, rc: int)
    requires s.exits == [] && i < |s.ios| && s.ios[i].stage.SeekingData? && !s.Halted()
    ensures var t := SeekDataDone(c, s, i, s.ios[i].stage.from, rc);
            t.exits == [] || (t.exits == [t.error] && t.outstanding == 0)
  {
    hide Find, Config.Start, Config.WriteStart;
  }

  lemma SeekExact(c: Config, s: State, i: nat, rc: int)
    requires c.Valid() && DataInv(c, s) && s.exits == [] && s.outstanding >= 0 && i < |s.ios| && s.ios[i].stage.Idle?
    ensures var t := TargetSeek(c, s, i, rc);
            t.exits == [] || (t.exits == [t.error] && t.outstanding == 0)
  {
    hide DataInv, Config.Valid, PopulateBuffer, Config.Start, Config.WriteStart, Find, Finished;
    if !c.mode.SparseBdev? || s.queue == [] {
      SeekLaunches(c, s, i, rc);
    }
  }

  /** After every event dd_exit has been called at most once, with the current error and nothing outstanding, unless
      the event is late: then a seek is submitted after dd_exit, or dd_exit is called a second time. */
  lemma StepExitsExactly(c: Config, s: State, e: Event)
    requires c.Valid() && Inv(c, s) && Enabled(s, e)
    ensures Answers(c, s, e, Step(c, s, e))
  {
    hide DataInv, SeekInv, CountInv, ExitInv, AccountInv, Config.Valid, ClaimLength, RoundUp, Finished;
    hide TargetRead, TargetWrite, TargetSeek, SeekDataDone, SeekHoleDone;
    match e
    case Complete(i, res, rc, rcNext) =>
      if s.ios[i].Seeking() {
        if s.Halted() {
          SeekStrands(c, s, i);
          HaltedSeekDone(c, s, i, rc, rcNext);
        } else if s.ios[i].stage.SeekingData? {
          SeekDataDoneExact(c, s, i, rc);
        } else {
          SeekHoleDoneExact(c, s, i, rc, rcNext);
        }
      } else {
        ReleasedCount(c, s, i, res);
        var s1 := Released(s, i, res);
        if s.ios[i].stage.Populating? {
          ReadLaunches(c, s1, i, rc);
        } else if s.ios[i].stage.Reading? {
          WriteLaunches(c, s1, i, rc);
        } else {
          ReleasedKeeps(c, s, i, res, rc, rcNext);
          SeekExact(c, s1, i, rc);
        }
      }
    case _ =>
  }

  /** A run that called dd_exit did so in its last event, and Answers says how. */
  lemma {:induction false} RunExits(c: Config, s: State, es: seq<Event>, t: State) returns (u: State)
    requires c.Valid() && Inv(c, s) && s.exits == [] && Run(c, s, es, t) && t.exits != []
    ensures es != [] && Inv(c, u) && Run(c, s, es[..|es| - 1], u) && Enabled(u, es[|es| - 1])
    ensures t == Step(c, u, es[|es| - 1]) && Answers(c, u, es[|es| - 1], t)
    decreases |es|
  {
    hide Inv, Step, Answers, Config.Valid;
    StepKeeps(c, s, es[0]);
    var s1 := Step(c, s, es[0]);
    if s1.exits == [] {
      u := RunExits(c, s1, es[1..], t);
      assert es[..|es| - 1][1..] == es[1..][..|es| - 2];
    } else {
      assert es[1..] == [];
      StepExitsExactly(c, s, es[0]);
      u := s;
      assert es[..|es| - 1] == [];
      RunNil(c, s);
    }
  }

  // ---- jobs ----

  /** Some run, not ended by its start-up, has an operation in flight or a second dd_exit after the first. */
  ghost predicate ExitsLate(c: Config) {
    exists buf: seq<Byte>, interrupted: bool, rcs: seq<int>, es: seq<Event>, t: State ::
      Execution(c, buf, interrupted, rcs, es, t) && es != [] && t.exits != [] && (t.outstanding != 0 || |t.exits| > 1)
  }

  /** There is input left behind the first chunk. */
  ghost predicate SeveralChunks(c: Config) {
    var data := Find(c.hole, c.Start(), false);
    data < c.End() && data + ClaimLength(c, data) < c.End()
  }

  /** The first claim is refused while the second slot waits. */
  lemma RefusedClaim(c: Config, buf: seq<Byte>, rc: int, rcNext: int) returns (rcs: seq<int>, es: seq<Event>, t: State)
    requires c.Valid() && c.mode.SparseBdev? && c.depth >= 2 && SeveralChunks(c) && |buf| == c.unit && rc != 0
    ensures Execution(c, buf, false, rcs, es, t) && es != []
    ensures t.exits == [rc] + (if rcNext == 0 then [] else [rcNext]) && t.outstanding == if rcNext == 0 then 1 else 0
  {
    hide Run, Config.Start, Config.ValidSparse, Inv, Find, StartSlots, ClaimLength, SeekHoleDone, SeekDataDone;
    rcs := seq(c.depth, _ => 0);
    var s := Started(c, buf, false, rcs);
    StartUp(c, buf, false, rcs);
    InputEnd(c);
    FirstSeek(c, buf, rcs);
    RunNil(c, s);
    var es1, s1 := Then(c, s, [], s, Device(0));
    var es2, s2 := Then(c, s, es1, s1, Complete(0, 0, 0, 0));
    DataFound(c, s1, 0);
    var es3, s3 := Then(c, s, es2, s2, Device(0));
    var es4, s4 := Then(c, s, es3, s3, Complete(0, 0, rc, rcNext));
    StepExitsExactly(c, s3, Complete(0, 0, rc, rcNext));
    es, t := es4, s4;
  }

  lemma DataFound(c: Config, s: State, i: nat)
    requires i < |s.ios| && s.ios[i].stage.SeekingData? && !s.Halted()
    requires Find(c.hole, s.ios[i].stage.from, false) < |c.hole|
    ensures var data := Find(c.hole, s.ios[i].stage.from, false);
            SeekDataDone(c, s, i, s.ios[i].stage.from, 0) == SetStage(s.(pos := data), i, SeekingHole(data))
  {
    hide Find;
  }

  /** With a single chunk, or a single slot, no event is late. */
  lemma NotLate(c: Config, s: State, e: Event)
    requires c.Valid() && Inv(c, s) && Enabled(s, e) && c.mode.SparseBdev? && (c.depth < 2 || !SeveralChunks(c))
    ensures !Late(c, s, e)
  {
    hide CountInv, ExitInv, AccountInv, SlotsOk, Separate, Outside, Mixed, Untouched, Covered, Config.Start;
    if e.Complete? && s.ios[e.slot].stage.SeekingHole? {
      assert e.slot in s.queue && SeekOk(c, s.pos, s.ios[e.slot].stage);
      if |s.queue| >= 2 {
        assert s.queue[0] < c.depth && s.queue[1] < c.depth && s.queue[0] != s.queue[1];
        OneChunk(c, s.pos);
      }
    }
  }

  lemma OneChunk(c: Config, pos: nat)
    requires c.Valid() && !c.mode.Dense? && !SeveralChunks(c) && c.Start() <= pos < c.End() && !c.hole[pos]
    ensures pos + ClaimLength(c, pos) == c.End()
  {
    hide Config.Start, Config.Aligned;
    var data := Find(c.hole, c.Start(), false);
    assert data <= pos;
    assert forall p :: data <= p < c.End() ==> !c.hole[p];
  }

  /** Operations are submitted, or dd_exit is called again, after dd_exit for exactly those jobs: sparse copies from a
      block device with at least two slots and more than one chunk. */
  lemma ExitsLateIff(c: Config)
    requires c.Valid() && c.depth > 0
    ensures ExitsLate(c) <==> c.mode.SparseBdev? && c.depth >= 2 && SeveralChunks(c)
  {
    hide Execution, SeveralChunks, Config.Valid;
    if c.mode.SparseBdev? && c.depth >= 2 && SeveralChunks(c) {
      var rcs, es, t := RefusedClaim(c, seq(c.unit, _ => 0), 1, 1);
    } else {
      forall buf: seq<Byte>, interrupted: bool, rcs: seq<int>, es: seq<Event>, t: State
        | Execution(c, buf, interrupted, rcs, es, t) && es != [] && t.exits != []
        ensures t.outstanding == 0 && |t.exits| == 1
      {
        ExitsInTime(c, buf, interrupted, rcs, es, t);
      }
    }
  }

  lemma ExitsInTime(c: Config, buf: seq<Byte>, interrupted: bool, rcs: seq<int>, es: seq<Event>, t: State)
    requires Execution(c, buf, interrupted, rcs, es, t) && es != [] && t.exits != []
    requires !(c.mode.SparseBdev? && c.depth >= 2 && SeveralChunks(c))
    ensures t.outstanding == 0 && |t.exits| == 1
  {
    hide Inv, Started, Step, SeveralChunks, Config.Valid, Late;
    var s := Started(c, buf, interrupted, rcs);
    StartUp(c, buf, interrupted, rcs);
    var u := RunExits(c, s, es, t);
    if c.mode.SparseBdev? {
      NotLate(c, u, es[|es| - 1]);
    } else {
      NoSeekNotLate(c, u, es[|es| - 1]);
    }
  }

  lemma NoSeekNotLate(c: Config, s: State, e: Event)
    requires Inv(c, s) && !c.mode.SparseBdev?
    ensures !Late(c, s, e)
  {
    hide DataInv, CountInv, ExitInv, AccountInv, ClaimLength;
    assert s.queue == [];
  }
}
