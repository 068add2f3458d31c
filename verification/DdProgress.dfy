/** The byte counters of the progress report, and a measure that bounds the length of every run. */
module DdProgress {
  import opened Arith
  import opened DdModel
  import opened DdData
  import opened DdSteps
  import opened DdCount

  // ---- byte accounting ----

  /** Number of copied bytes in `[a, b)`: all of them, or in sparse mode those outside holes. */
  function DataBytes(c: Config, a: nat, b: nat): nat {
    if b <= a then 0 else DataBytes(c, a, b - 1) + (if c.Copied(b - 1) then 1 else 0)
  }

  lemma {:induction false} DataBytesExtend(c: Config, a: nat, b: nat, b': nat)
    requires a <= b <= b'
    ensures (forall p: nat :: b <= p < b' ==> c.Copied(p)) ==> DataBytes(c, a, b') == DataBytes(c, a, b) + (b' - b)
    ensures (forall p: nat :: b <= p < b' ==> !c.Copied(p)) ==> DataBytes(c, a, b') == DataBytes(c, a, b)
    decreases b'
  {
    if b < b' {
      DataBytesExtend(c, a, b, b' - 1);
    }
  }

  ghost function Accounted(s: State): nat { s.total + s.incremental + Sum(s.ios, Unwritten) }

  /** Reported bytes plus those still in the pipeline are exactly the copied bytes passed by `pos`. */
  ghost predicate AccountInv(c: Config, s: State) {
    !s.Halted() ==> Accounted(s) == DataBytes(c, c.Start(), s.pos)
  }

  lemma PopulateAccounts(c: Config, s: State, i: nat, rc: int)
    requires c.Valid() && PosOk(c, s.pos) && i < |s.ios| && s.ios[i].stage.Idle? && AccountInv(c, s)
    requires s.Halted() || s.pos == c.End() || ClaimOk(c, s.pos, s.ios[i].length)
    ensures AccountInv(c, PopulateBuffer(c, s, i, rc))
  {
    hide Config.Aligned, Config.Start, Config.WriteStart, Config.Copied;
    var t := PopulateBuffer(c, s, i, rc);
    SumUpdate(s.ios, i, t.ios[i], Unwritten);
    PopulateShape(c, s, i, rc);
    if !t.Halted() {
      DataBytesExtend(c, c.Start(), s.pos, t.pos);
    }
  }

  lemma SeekAccounts(c: Config, s: State, i: nat, rc: int)
    requires c.Valid() && DataInv(c, s) && i < |s.ios| && s.ios[i].stage.Idle? && AccountInv(c, s)
    ensures AccountInv(c, TargetSeek(c, s, i, rc))
  {
    hide SlotsOk, Separate, Outside, Mixed, Untouched, Covered, Config.ValidSparse, Config.Start, PopulateBuffer;
    var t := TargetSeek(c, s, i, rc);
    if c.mode.Dense? {
      if !s.Halted() && s.pos < c.End() {
        DenseClaimOk(c, s, i);
      }
      PopulateAccounts(c, s, i, rc);
    } else if s.pos == c.End() || s.Halted() {
    } else if c.mode.SparseFile? {
      if Find(c.hole, s.pos, false) < |c.hole| {
        ExtentAccounts(c, s, i, rc);
      }
    } else {
      SumUpdate(s.ios, i, t.ios[i], Unwritten);
      assert t.ios == s.ios[i := t.ios[i]];
    }
  }

  lemma SkipAccounts(c: Config, s: State, data: nat)
    requires !c.mode.Dense? && c.Start() <= s.pos && data == Find(c.hole, s.pos, false)
    ensures DataBytes(c, c.Start(), data) == DataBytes(c, c.Start(), s.pos)
  {
    DataBytesExtend(c, c.Start(), s.pos, data);
  }

  lemma ExtentAccounts(c: Config, s: State, i: nat, rc: int)
    requires c.Valid() && DataInv(c, s) && i < |s.ios| && s.ios[i].stage.Idle? && AccountInv(c, s)
    requires c.mode.SparseFile? && Find(c.hole, s.pos, false) < |c.hole|
    ensures var data := Find(c.hole, s.pos, false);
            AccountInv(c, PopulateBuffer(c, Extent(c, s, i, data, Find(c.hole, data, true)), i, rc))
  {
    hide DataInv, Config.Start, PopulateBuffer, ClaimOk;
    var data := Find(c.hole, s.pos, false);
    DataPos(c, s);
    SkipAccounts(c, s, data);
    SkipHole(c, s, data);
    DataPos(c, s.(pos := data));
    var t := Extent(c, s, i, data, Find(c.hole, data, true));
    SumUpdate(s.ios, i, t.ios[i], Unwritten);
    ExtentClaimOk(c, data);
    PopulateAccounts(c, t, i, rc);
  }

  lemma SeekDataDoneAccounts(c: Config, s: State, i: nat, rc: int)
    requires c.Valid() && DataInv(c, s) && SeekInv(c, s) && AccountInv(c, s)
    requires i < |s.ios| && s.ios[i].stage.SeekingData?
    ensures AccountInv(c, SeekDataDone(c, s, i, s.ios[i].stage.from, rc))
  {
    hide DataInv, Config.Valid, Find, Config.Start, Config.WriteStart, DataBytes;
    assert i in s.queue && SeekOk(c, s.pos, s.ios[i].stage);
    DataPos(c, s);
    SumUpdate(s.ios, i, SeekDataDone(c, s, i, s.ios[i].stage.from, rc).ios[i], Unwritten);
    SkipAccounts(c, s, Find(c.hole, s.pos, false));
  }

  lemma SeekHoleDoneAccounts(c: Config, s: State, i: nat, rc: int, rcNext: int)
    requires c.Valid() && DataInv(c, s) && SeekInv(c, s) && AccountInv(c, s)
    requires i < |s.ios| && s.ios[i].stage.SeekingHole?
    ensures AccountInv(c, SeekHoleDone(c, s, i, s.ios[i].stage.from, rc, rcNext))
  {
    hide DataInv, Config.Valid, PopulateBuffer, StartNextSeek, ClaimOk, Find, Config.Start, DataBytes;
    assert i in s.queue && SeekOk(c, s.pos, s.ios[i].stage);
    DataPos(c, s);
    if !s.Halted() {
      var s1 := HoleFound(c, s, i, Find(c.hole, s.pos, true));
      SumUpdate(s.ios, i, s1.ios[i], Unwritten);
      ExtentClaimOk(c, s.pos);
      PopulateAccounts(c, s1, i, rc);
      PopulateShape(c, s1, i, rc);
      var s2 := PopulateBuffer(c, s1, i, rc);
      DequeueKeepsQueue(c, s, s2, i);
      NextSeekAccounts(c, s2, rcNext);
    }
  }

  lemma NextSeekAccounts(c: Config, s: State, rc: int)
    requires SeekInv(c, s) && AccountInv(c, s)
    ensures AccountInv(c, StartNextSeek(c, s, rc))
  {
    if s.queue != [] {
      assert s.queue[0] in s.queue;
      SumUpdate(s.ios, s.queue[0], StartNextSeek(c, s, rc).ios[s.queue[0]], Unwritten);
    }
  }

  lemma ChunkDoneAccounts(c: Config, s: State, i: nat, res: int, rc: int, rcNext: int)
    requires AccountInv(c, s) && i < |s.ios| && (s.ios[i].stage.Populating? || s.ios[i].stage.Reading?)
    ensures AccountInv(c, CompletePoll(c, s, i, res, rc, rcNext))
  {
    hide DataBytes, Config.Start;
    var t := CompletePoll(c, s, i, res, rc, rcNext);
    SumUpdate(s.ios, i, t.ios[i], Unwritten);
    assert t.ios == s.ios[i := t.ios[i]];
  }

  /** Every event, the status poller included, keeps the account exact. */
  lemma StepAccounts(c: Config, s: State, e: Event)
    requires c.Valid() && DataInv(c, s) && SeekInv(c, s) && AccountInv(c, s) && Enabled(s, e)
    ensures AccountInv(c, Step(c, s, e))
  {
    hide DataInv, SeekInv, Config.Valid, TargetRead, TargetWrite, TargetSeek, SeekDataDone, SeekHoleDone, RoundUp;
    hide DataBytes, Config.Start;
    match e
    case Device(i) =>
      SumUpdate(s.ios, i, Transfer(c, s, i).ios[i], Unwritten);
    case Complete(i, res, rc, rcNext) =>
      match s.ios[i].stage {
        case SeekingData(_) => SeekDataDoneAccounts(c, s, i, rc);
        case SeekingHole(_) => SeekHoleDoneAccounts(c, s, i, rc, rcNext);
        case Writing =>
          ReleasedKeeps(c, s, i, res, rc, rcNext);
          SumUpdate(s.ios, i, Released(s, i, res).ios[i], Unwritten);
          SeekAccounts(c, Released(s, i, res), i, rc);
        case _ => ChunkDoneAccounts(c, s, i, res, rc, rcNext);
      }
    case _ =>
  }

  // ---- the measure ----

  function Rank(io: Io): nat {
    match io.stage
    case Idle => 0
    case Waiting => 1
    case SeekingHole(_) => if io.applied then 2 else 3
    case SeekingData(_) => if io.applied then 4 else 5
    case Writing => if io.applied then 6 else 7
    case Reading => if io.applied then 8 else 9
    case Populating => if io.applied then 10 else 11
  }

  /** Unclaimed bytes outweigh anything a slot can still do with one chunk. */
  ghost function Work(c: Config, s: State): int {
    14 * (c.End() - s.pos) + Sum(s.ios, Rank)
  }

  lemma PopulateWork(c: Config, s: State, i: nat, rc: int)
    requires c.Valid() && PosOk(c, s.pos) && i < |s.ios| && s.ios[i].stage.Idle?
    ensures Work(c, PopulateBuffer(c, s, i, rc)) <= Work(c, s)
    ensures !s.Halted() && s.pos < c.End() && s.ios[i].length > 0 ==>
              Work(c, PopulateBuffer(c, s, i, rc)) <= Work(c, s) - 3
  {
    hide Config.Aligned, Config.Start, Config.WriteStart, Config.Copied;
    var t := PopulateBuffer(c, s, i, rc);
    SumUpdate(s.ios, i, t.ios[i], Rank);
    PopulateShape(c, s, i, rc);
  }

  lemma SeekWork(c: Config, s: State, i: nat, rc: int)
    requires c.Valid() && DataInv(c, s) && i < |s.ios| && s.ios[i].stage.Idle?
    ensures Work(c, TargetSeek(c, s, i, rc)) <= Work(c, s) + 5
  {
    hide SlotsOk, Separate, Outside, Mixed, Untouched, Covered, Config.ValidSparse, Config.Start, PopulateBuffer;
    var t := TargetSeek(c, s, i, rc);
    if c.mode.Dense? {
      PopulateWork(c, s, i, rc);
    } else if c.mode.SparseFile? {
      if Find(c.hole, s.pos, false) < |c.hole| {
        ExtentWork(c, s, i, rc);
      }
    } else {
      SumUpdate(s.ios, i, t.ios[i], Rank);
      assert t.ios == s.ios[i := t.ios[i]];
    }
  }

  lemma ExtentWork(c: Config, s: State, i: nat, rc: int)
    requires c.Valid() && DataInv(c, s) && i < |s.ios| && s.ios[i].stage.Idle?
    requires !c.mode.Dense? && Find(c.hole, s.pos, false) < |c.hole|
    ensures var data := Find(c.hole, s.pos, false);
            Work(c, PopulateBuffer(c, Extent(c, s, i, data, Find(c.hole, data, true)), i, rc)) <= Work(c, s)
  {
    hide DataInv, Config.Valid, Config.Start, PopulateBuffer;
    var data := Find(c.hole, s.pos, false);
    SkipHole(c, s, data);
    DataPos(c, s.(pos := data));
    var s1 := Extent(c, s, i, data, Find(c.hole, data, true));
    SumUpdate(s.ios, i, s1.ios[i], Rank);
    PopulateWork(c, s1, i, rc);
  }

  lemma OneSlotWork(c: Config, s: State, t: State, i: nat)
    requires i < |s.ios| && |t.ios| == |s.ios| && t.ios == s.ios[i := t.ios[i]]
    ensures Work(c, t) - Work(c, s) == 14 * (s.pos - t.pos) + Rank(t.ios[i]) - Rank(s.ios[i])
  {
    SumUpdate(s.ios, i, t.ios[i], Rank);
  }

  lemma SeekDataDoneWork(c: Config, s: State, i: nat, rc: int)
    requires SeekInv(c, s) && i < |s.ios| && s.ios[i].stage.SeekingData? && s.ios[i].applied
    ensures Work(c, SeekDataDone(c, s, i, s.ios[i].stage.from, rc)) < Work(c, s)
  {
    hide Config.Start, Config.WriteStart;
    assert SeekOk(c, s.pos, s.ios[i].stage);
    OneSlotWork(c, s, SeekDataDone(c, s, i, s.ios[i].stage.from, rc), i);
  }

  lemma SeekHoleDoneWork(c: Config, s: State, i: nat, rc: int, rcNext: int)
    requires c.Valid() && DataInv(c, s) && SeekInv(c, s)
    requires i < |s.ios| && s.ios[i].stage.SeekingHole? && s.ios[i].applied
    ensures Work(c, SeekHoleDone(c, s, i, s.ios[i].stage.from, rc, rcNext)) < Work(c, s)
  {
    hide DataInv, Config.Valid, PopulateBuffer, StartNextSeek, Find, Config.Start, Work;
    HoleReady(c, s, i);
    if s.Halted() {
      OneSlotWork(c, s, SeekHoleDone(c, s, i, s.ios[i].stage.from, rc, rcNext), i);
    } else {
      var s1 := HoleFound(c, s, i, Find(c.hole, s.ios[i].stage.from, true));
      OneSlotWork(c, s, s1, i);
      PopulateWork(c, s1, i, rc);
      PopulateShape(c, s1, i, rc);
      var s2 := PopulateBuffer(c, s1, i, rc);
      DequeueKeepsQueue(c, s, s2, i);
      NextSeekWork(c, s2, rcNext);
    }
  }

  lemma NextSeekWork(c: Config, s: State, rc: int)
    requires SeekInv(c, s) && forall j :: 0 <= j < |s.ios| ==> !s.ios[j].Seeking()
    ensures Work(c, StartNextSeek(c, s, rc)) <= Work(c, s) + 4
  {
    if s.queue != [] {
      assert s.queue[0] in s.queue;
      SumUpdate(s.ios, s.queue[0], StartNextSeek(c, s, rc).ios[s.queue[0]], Rank);
    }
  }

  lemma WriteDoneWork(c: Config, s: State, i: nat, res: int, rc: int, rcNext: int)
    requires c.Valid() && DataInv(c, s) && SeekInv(c, s) && Enabled(s, Complete(i, res, rc, rcNext))
    requires s.ios[i].stage.Writing?
    ensures Work(c, CompletePoll(c, s, i, res, rc, rcNext)) < Work(c, s)
  {
    hide DataInv, SeekInv, Config.Valid, TargetSeek, Work;
    ReleasedKeeps(c, s, i, res, rc, rcNext);
    OneSlotWork(c, s, Released(s, i, res), i);
    SeekWork(c, Released(s, i, res), i, rc);
  }

  lemma ChunkDoneWork(c: Config, s: State, i: nat, res: int, rc: int, rcNext: int)
    requires i < |s.ios| && (s.ios[i].stage.Populating? || s.ios[i].stage.Reading?)
    ensures Work(c, CompletePoll(c, s, i, res, rc, rcNext)) < Work(c, s)
  {
    hide Work;
    OneSlotWork(c, s, CompletePoll(c, s, i, res, rc, rcNext), i);
  }

  /** Every transfer and every completion uses up work; the other events leave it alone. */
  lemma StepWork(c: Config, s: State, e: Event)
    requires c.Valid() && DataInv(c, s) && SeekInv(c, s) && Enabled(s, e)
    ensures if e.Device? || e.Complete? then Work(c, Step(c, s, e)) < Work(c, s)
            else Work(c, Step(c, s, e)) == Work(c, s)
  {
    hide DataInv, SeekInv, Config.Valid, TargetRead, TargetWrite, TargetSeek, SeekDataDone, SeekHoleDone, RoundUp;
    match e
    case Device(i) => OneSlotWork(c, s, Transfer(c, s, i), i);
    case Complete(i, res, rc, rcNext) =>
      match s.ios[i].stage {
        case SeekingData(_) => SeekDataDoneWork(c, s, i, rc);
        case SeekingHole(_) => SeekHoleDoneWork(c, s, i, rc, rcNext);
        case Writing => WriteDoneWork(c, s, i, res, rc, rcNext);
        case _ => ChunkDoneWork(c, s, i, res, rc, rcNext);
      }
    case _ =>
  }
}
