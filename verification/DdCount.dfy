/** The count of outstanding operations of the copy engine and its calls of dd_exit. */
module DdCount {
  import opened Arith
  import opened DdModel
  import opened DdData
  import opened DdSteps

  function Busy(io: Io): nat { if io.InFlight() then 1 else 0 }

  /** Bytes a slot has claimed but not yet handed to the output. */
  function Unwritten(io: Io): nat { if io.stage.Populating? || io.stage.Reading? then io.length else 0 }

  /** Nothing is left to copy: the end was reached, or only a hole remains and the file was extended over
      it; and the byte count was reported. */
  ghost predicate Finished(c: Config, s: State) {
    && s.incremental == 0
    && (|| s.pos == c.End()
        || (!c.mode.Dense? && Find(c.hole, s.pos, false) >= |c.hole|
            && (c.fileOutput ==> s.size >= c.WriteStart() + c.copySize)))
  }

  /** What a pipeline function does to the counters: one slot changes, `outstanding` follows it, and it
      calls dd_exit once, with the current error, exactly when it leaves nothing outstanding. */
  ghost predicate Launched(c: Config, s: State, t: State, i: nat) {
    && i < |s.ios| && |t.ios| == |s.ios| && t.ios == s.ios[i := t.ios[i]]
    && t.outstanding == s.outstanding + Busy(t.ios[i]) - Busy(s.ios[i])
    && t.interrupt == s.interrupt && (t.error == s.error || t.error != 0)
    && (if t.outstanding == 0 then t.exits == s.exits + [t.error] else t.exits == s.exits)
    && (t.outstanding == 0 && !t.Halted() ==> Finished(c, t))
    && (s.Halted() ==> !t.ios[i].InFlight())
  }

  lemma ReadLaunches(c: Config, s: State, i: nat, rc: int)
    requires i < |s.ios| && s.ios[i].stage.Idle? && s.outstanding >= 0
    ensures Launched(c, s, TargetRead(c, s, i, rc), i)
  {
  }

  lemma WriteLaunches(c: Config, s: State, i: nat, rc: int)
    requires i < |s.ios| && s.ios[i].stage.Idle? && s.outstanding >= 0
    ensures Launched(c, s, TargetWrite(c, s, i, rc), i)
  {
  }

  lemma PopulateLaunches(c: Config, s: State, i: nat, rc: int)
    requires c.Valid() && PosOk(c, s.pos) && i < |s.ios| && s.ios[i].stage.Idle? && s.outstanding >= 0
    requires s.Halted() || s.pos == c.End() || s.ios[i].length > 0
    ensures Launched(c, s, PopulateBuffer(c, s, i, rc), i)
    ensures !s.Halted() && s.pos < c.End() ==>
              PopulateBuffer(c, s, i, rc).error != 0 || PopulateBuffer(c, s, i, rc).outstanding > 0
  {
    hide Config.Aligned, Config.Start, Config.WriteStart, Find;
  }

  lemma SeekLaunches(c: Config, s: State, i: nat, rc: int)
    requires c.Valid() && DataInv(c, s) && i < |s.ios| && s.ios[i].stage.Idle? && s.outstanding >= 0
    requires c.mode.SparseBdev? ==> s.queue == []
    ensures Launched(c, s, TargetSeek(c, s, i, rc), i)
  {
    hide SlotsOk, Separate, Outside, Mixed, Untouched, Covered, Config.ValidSparse, Config.Start, PopulateBuffer;
    if c.mode.Dense? {
      PopulateLaunches(c, s, i, rc);
    } else if c.mode.SparseFile? && !s.Halted() && s.pos < c.End() && Find(c.hole, s.pos, false) < |c.hole| {
      ExtentLaunches(c, s, i, rc);
    }
  }

  lemma ExtentLaunches(c: Config, s: State, i: nat, rc: int)
    requires c.Valid() && DataInv(c, s) && i < |s.ios| && s.ios[i].stage.Idle? && s.outstanding >= 0
    requires c.mode.SparseFile? && Find(c.hole, s.pos, false) < |c.hole|
    ensures var data := Find(c.hole, s.pos, false);
            Launched(c, s, PopulateBuffer(c, Extent(c, s, i, data, Find(c.hole, data, true)), i, rc), i)
  {
    hide DataInv, Config.Start, PopulateBuffer, Finished;
    var data := Find(c.hole, s.pos, false);
    SkipHole(c, s, data);
    var t := Extent(c, s, i, data, Find(c.hole, data, true));
    DataPos(c, s.(pos := data));
    ExtentClaimOk(c, data);
    PopulateLaunches(c, t, i, rc);
  }

  lemma DataPos(c: Config, s: State)
    requires c.Valid() && DataInv(c, s)
    ensures PosOk(c, s.pos) && c.Start() <= s.pos <= c.End() && (!c.mode.Dense? ==> |c.hole| == |c.input| == c.End())
  {
    hide Config.Start;
  }

  /** Operations that `outstanding` still counts although they are no longer in flight. */
  ghost function Stray(s: State): int { s.outstanding - Sum(s.ios, Busy) }

  ghost predicate NoSeek(s: State) { forall i :: 0 <= i < |s.ios| ==> !s.ios[i].Seeking() }

  /** A seek completes after an error or an interrupt; its callback returns without counting it down. */
  predicate Strands(s: State, e: Event) {
    e.Complete? && e.slot < |s.ios| && s.ios[e.slot].Seeking() && s.Halted()
  }

  /** `outstanding` counts the operations in flight, and after a stranded seek one more. */
  ghost predicate CountInv(c: Config, s: State) {
    Stray(s) == 0 || (Stray(s) == 1 && c.mode.SparseBdev? && s.Halted() && NoSeek(s))
  }

  lemma LaunchKeepsCount(c: Config, s: State, t: State, i: nat)
    requires Launched(c, s, t, i) && CountInv(c, s)
    ensures Stray(t) == Stray(s) && CountInv(c, t)
  {
    SumUpdate(s.ios, i, t.ios[i], Busy);
  }

  /** The asserts before every decrement hold: a completing operation is still counted. */
  lemma CompletionIsCounted(c: Config, s: State, i: nat)
    requires CountInv(c, s) && i < |s.ios| && s.ios[i].InFlight()
    ensures s.outstanding > 0
  {
    SumAtLeast(s.ios, i, Busy);
  }

  lemma ReleasedCount(c: Config, s: State, i: nat, res: int)
    requires CountInv(c, s) && i < |s.ios| && s.ios[i].InFlight()
    ensures Stray(Released(s, i, res)) == Stray(s) && CountInv(c, Released(s, i, res))
    ensures Released(s, i, res).outstanding >= 0
  {
    SumUpdate(s.ios, i, Released(s, i, res).ios[i], Busy);
  }

  lemma SeekKeepsCount(c: Config, s: State, i: nat, rc: int)
    requires c.Valid() && DataInv(c, s) && CountInv(c, s) && i < |s.ios| && s.ios[i].stage.Idle?
    ensures Stray(TargetSeek(c, s, i, rc)) == Stray(s) && CountInv(c, TargetSeek(c, s, i, rc))
  {
    hide DataInv, Config.Valid, PopulateBuffer, Config.Start, Find;
    if c.mode.SparseBdev? && s.queue != [] {
      SumUpdate(s.ios, i, SetStage(s, i, Waiting).ios[i], Busy);
    } else {
      SeekLaunches(c, s, i, rc);
      LaunchKeepsCount(c, s, TargetSeek(c, s, i, rc), i);
    }
  }

  /** When a hole seek completes its slot heads the queue and there is data to claim. */
  lemma HoleReady(c: Config, s: State, i: nat)
    requires c.Valid() && DataInv(c, s) && SeekInv(c, s) && i < |s.ios| && s.ios[i].stage.SeekingHole?
    ensures PosOk(c, s.pos) && s.pos < c.End() && c.mode.SparseBdev? && s.queue != [] && s.queue[0] == i
    ensures HoleFound(c, s, i, Find(c.hole, s.ios[i].stage.from, true)).ios[i].length > 0
  {
    hide SlotsOk, Separate, Outside, Mixed, Untouched, Covered, LengthsOk, ClaimOk, Config.Start;
    assert i in s.queue && SeekOk(c, s.pos, s.ios[i].stage);
    ExtentClaimOk(c, s.pos);
  }

  /** A seek that completes after a halt leaves the queue, and nobody seeks any more. */
  lemma SeekStrands(c: Config, s: State, i: nat)
    requires CountInv(c, s) && SeekInv(c, s) && s.Halted() && i < |s.ios| && s.ios[i].Seeking()
    ensures Stray(s) == 0 && Stray(StopReporting(Dequeue(s, i))) == 1 && CountInv(c, StopReporting(Dequeue(s, i)))
    ensures NoSeek(StopReporting(Dequeue(s, i))) && StopReporting(Dequeue(s, i)).exits == s.exits
  {
    hide SeekOk;
    assert i in s.queue;
    SumUpdate(s.ios, i, Dequeue(s, i).ios[i], Busy);
    SumAtLeast(s.ios, i, Busy);
    DequeueKeepsQueue(c, s, Dequeue(s, i), i);
  }

  lemma SeekDataDoneCount(c: Config, s: State, i: nat, rc: int)
    requires CountInv(c, s) && !s.Halted() && i < |s.ios| && s.ios[i].stage.SeekingData?
    ensures Stray(SeekDataDone(c, s, i, s.ios[i].stage.from, rc)) == 0
  {
    hide Find, Config.Start, Config.WriteStart;
    var t := SeekDataDone(c, s, i, s.ios[i].stage.from, rc);
    SumUpdate(s.ios, i, t.ios[i], Busy);
  }

  lemma SeekHoleDoneCount(c: Config, s: State, i: nat, rc: int, rcNext: int)
    requires c.Valid() && DataInv(c, s) && CountInv(c, s) && SeekInv(c, s)
    requires !s.Halted() && i < |s.ios| && s.ios[i].stage.SeekingHole?
    ensures Stray(SeekHoleDone(c, s, i, s.ios[i].stage.from, rc, rcNext)) == 0
  {
    hide DataInv, Config.ValidSparse, PopulateBuffer, StartNextSeek, Config.Start, Find;
    HoleReady(c, s, i);
    var s1 := HoleFound(c, s, i, Find(c.hole, s.ios[i].stage.from, true));
    SumUpdate(s.ios, i, s1.ios[i], Busy);
    PopulateLaunches(c, s1, i, rc);
    var s2 := PopulateBuffer(c, s1, i, rc);
    LaunchKeepsCount(c, s1, s2, i);
    PopulateShape(c, s1, i, rc);
    DequeueKeepsQueue(c, s, s2, i);
    NextSeekCount(c, s2, rcNext);
  }

  lemma NextSeekCount(c: Config, s: State, rc: int)
    requires SeekInv(c, s) && NoSeek(s)
    ensures Stray(StartNextSeek(c, s, rc)) == Stray(s)
  {
    hide SeekOk;
    if s.queue != [] {
      assert s.queue[0] in s.queue;
      var t := StartNextSeek(c, s, rc);
      SumUpdate(s.ios, s.queue[0], t.ios[s.queue[0]], Busy);
    }
  }

  /** Every event keeps `outstanding` equal to the number of operations in flight, except that each stranded seek
      leaves its unit behind; there is at most one. */
  lemma StepKeepsCount(c: Config, s: State, e: Event)
    requires c.Valid() && DataInv(c, s) && SeekInv(c, s) && CountInv(c, s) && Enabled(s, e)
    ensures CountInv(c, Step(c, s, e))
    ensures Stray(Step(c, s, e)) == Stray(s) + (if Strands(s, e) then 1 else 0)
  {
    hide DataInv, SeekInv, Config.Valid, TargetRead, TargetWrite, TargetSeek, RoundUp, Config.Start, Config.WriteStart;
    match e
    case Device(i) =>
      SumUpdate(s.ios, i, Transfer(c, s, i).ios[i], Busy);
    case Complete(i, res, rc, rcNext) =>
      if s.ios[i].Seeking() {
        SeekDoneCount(c, s, i, rc, rcNext);
      } else {
        ChunkDoneCount(c, s, i, res, rc, rcNext);
      }
    case _ =>
  }

  lemma SeekDoneCount(c: Config, s: State, i: nat, rc: int, rcNext: int)
    requires c.Valid() && DataInv(c, s) && SeekInv(c, s) && CountInv(c, s) && i < |s.ios| && s.ios[i].Seeking()
    ensures var t := CompletePoll(c, s, i, 0, rc, rcNext);
            CountInv(c, t) && Stray(t) == Stray(s) + (if s.Halted() then 1 else 0)
  {
    hide DataInv, SeekInv, Config.Valid, SeekDataDone, SeekHoleDone;
    if s.Halted() {
      SeekStrands(c, s, i);
      HaltedSeekDone(c, s, i, rc, rcNext);
    } else if s.ios[i].stage.SeekingData? {
      SeekDataDoneCount(c, s, i, rc);
    } else {
      SeekHoleDoneCount(c, s, i, rc, rcNext);
    }
  }

  lemma HaltedSeekDone(c: Config, s: State, i: nat, rc: int, rcNext: int)
    requires s.Halted() && i < |s.ios| && s.ios[i].Seeking()
    ensures CompletePoll(c, s, i, 0, rc, rcNext) == StopReporting(Dequeue(s, i))
  {
    hide Find, PopulateBuffer;
  }

  lemma ChunkDoneCount(c: Config, s: State, i: nat, res: int, rc: int, rcNext: int)
    requires c.Valid() && DataInv(c, s) && SeekInv(c, s) && CountInv(c, s)
    requires Enabled(s, Complete(i, res, rc, rcNext)) && s.ios[i].Active()
    ensures var t := CompletePoll(c, s, i, res, rc, rcNext);
            CountInv(c, t) && Stray(t) == Stray(s)
  {
    hide DataInv, SeekInv, Config.Valid, TargetRead, TargetWrite, TargetSeek;
    ReleasedCount(c, s, i, res);
    var s1 := Released(s, i, res);
    if s.ios[i].stage.Populating? {
      ReadLaunches(c, s1, i, rc);
      LaunchKeepsCount(c, s1, TargetRead(c, s1, i, rc), i);
    } else if s.ios[i].stage.Reading? {
      WriteLaunches(c, s1, i, rc);
      LaunchKeepsCount(c, s1, TargetWrite(c, s1, i, rc), i);
    } else {
      ReleasedKeeps(c, s, i, res, rc, rcNext);
      SeekKeepsCount(c, s1, i, rc);
    }
  }

  // ---- dd_exit ----

  /** Facts about the dd_exit calls made so far. */
  ghost predicate ExitInv(c: Config, s: State) {
    && (s.exits != [] && (!c.mode.SparseBdev? || !s.Halted()) ==> s.outstanding == 0)
    && (s.exits != [] && !s.Halted() ==> Finished(c, s))
    && (s.error == 0 ==> forall k :: 0 <= k < |s.exits| ==> s.exits[k] == 0)
  }

  /** Something is in flight or the program has ended. */
  ghost predicate Lively(s: State) { s.exits != [] || s.outstanding > 0 }

  lemma SeekDataDoneExits(c: Config, s: State, i: nat, rc: int)
    requires CountInv(c, s) && SeekInv(c, s) && s.exits == [] && i < |s.ios| && s.ios[i].stage.SeekingData?
    ensures ExitInv(c, SeekDataDone(c, s, i, s.ios[i].stage.from, rc))
  {
    hide Find, Config.Start, Config.WriteStart;
    assert i in s.queue && SeekOk(c, s.pos, s.ios[i].stage);
    SumAtLeast(s.ios, i, Busy);
  }

  lemma SeekHoleDoneExits(c: Config, s: State, i: nat, rc: int, rcNext: int)
    requires c.Valid() && DataInv(c, s) && CountInv(c, s) && SeekInv(c, s) && s.exits == []
    requires i < |s.ios| && s.ios[i].stage.SeekingHole?
    ensures ExitInv(c, SeekHoleDone(c, s, i, s.ios[i].stage.from, rc, rcNext))
  {
    hide DataInv, SeekInv, PosOk, Config.Valid, PopulateBuffer, Find, Finished;
    HoleReady(c, s, i);
    SumAtLeast(s.ios, i, Busy);
    if !s.Halted() {
      PopulateLaunches(c, HoleFound(c, s, i, Find(c.hole, s.ios[i].stage.from, true)), i, rc);
    }
  }

  lemma StepExits(c: Config, s: State, e: Event)
    requires c.Valid() && DataInv(c, s) && SeekInv(c, s) && CountInv(c, s) && ExitInv(c, s) && Enabled(s, e)
    ensures ExitInv(c, Step(c, s, e))
    ensures !c.mode.SparseBdev? && Lively(s) ==> Lively(Step(c, s, e))
  {
    hide DataInv, Config.Valid, TargetRead, TargetWrite, TargetSeek, SeekDataDone, SeekHoleDone, RoundUp, Finished;
    hide SeekOk, CountInv, Config.At;
    match e
    case Complete(i, res, rc, rcNext) =>
      if s.ios[i].Seeking() {
        assert i in s.queue;
        if s.ios[i].stage.SeekingData? {
          SeekDataDoneExits(c, s, i, rc);
        } else {
          SeekHoleDoneExits(c, s, i, rc, rcNext);
        }
      } else {
        ChunkDoneExits(c, s, i, res, rc, rcNext);
      }
    case _ =>
  }

  lemma ChunkDoneExits(c: Config, s: State, i: nat, res: int, rc: int, rcNext: int)
    requires c.Valid() && DataInv(c, s) && SeekInv(c, s) && CountInv(c, s)
    requires Enabled(s, Complete(i, res, rc, rcNext)) && s.ios[i].Active()
    ensures var t := CompletePoll(c, s, i, res, rc, rcNext);
            ExitInv(c, t) && (!c.mode.SparseBdev? ==> Lively(t))
  {
    hide DataInv, SeekInv, CountInv, Config.Valid, TargetRead, TargetWrite, TargetSeek, Finished;
    ReleasedCount(c, s, i, res);
    var s1 := Released(s, i, res);
    if s.ios[i].stage.Populating? {
      ReadLaunches(c, s1, i, rc);
    } else if s.ios[i].stage.Reading? {
      WriteLaunches(c, s1, i, rc);
    } else {
      ReleasedKeeps(c, s, i, res, rc, rcNext);
      if c.mode.SparseBdev? && s1.queue != [] {
        QueuedExits(c, s1, i, rc);
      } else {
        SeekLaunches(c, s1, i, rc);
      }
    }
  }

  lemma QueuedExits(c: Config, s: State, i: nat, rc: int)
    requires c.Valid() && DataInv(c, s) && s.exits == [] && s.outstanding >= 0
    requires i < |s.ios| && s.ios[i].stage.Idle? && c.mode.SparseBdev? && s.queue != []
    ensures ExitInv(c, TargetSeek(c, s, i, rc))
  {
    hide SlotsOk, Separate, Outside, Mixed, Untouched, Covered, Config.ValidSparse, Config.Start;
  }
}
