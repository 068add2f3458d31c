/** Every event of the copy engine keeps the data invariant and the discipline of the seek queue. */
module DdSteps {
  import opened Basics
  import opened Arith
  import opened DdModel
  import opened DdData

  // ---- the seek queue ----

  /** At most one seek is in flight; it belongs to the head of the queue and started at `pos`. */
  ghost predicate SeekInv(c: Config, s: State) {
    && (forall k :: 0 <= k < |s.queue| ==> s.queue[k] < |s.ios|)
    && (forall j, k :: 0 <= j < k < |s.queue| ==> s.queue[j] != s.queue[k])
    && (forall i :: 0 <= i < |s.ios| ==> (s.ios[i].Seeking() || s.ios[i].stage.Waiting? <==> i in s.queue))
    && (forall i :: 0 <= i < |s.ios| && s.ios[i].Seeking() ==> s.queue[0] == i && SeekOk(c, s.pos, s.ios[i].stage))
    && (s.queue != [] ==> c.mode.SparseBdev?)
  }

  ghost predicate SeekOk(c: Config, pos: nat, stage: Stage)
    requires stage.SeekingData? || stage.SeekingHole?
  {
    stage.from == pos && (stage.SeekingHole? ==> pos < |c.hole| && !c.hole[pos])
  }

  // ---- claiming a chunk ----

  /** The chunk slot `i` would get next is made of copied bytes and ends on a block or at the end. */
  ghost predicate ClaimOk(c: Config, pos: nat, length: nat)
    requires pos <= c.End()
  {
    var n := Min(length, c.End() - pos);
    && 0 < length <= c.unit
    && (c.Aligned(n) || pos + n == c.End())
    && (forall p: nat :: pos <= p < pos + n ==> c.Copied(p))
    && (c.mode.Dense? ==> length == c.unit)
  }

  lemma AlignedSum(c: Config, x: int, y: int)
    requires c.Aligned(x) && c.Aligned(y)
    ensures c.Aligned(x + y) && c.Aligned(x - y)
  {
    MultiplesAdd(x, y, c.outBlock);
  }

  lemma AlignedWhole(c: Config, io: Io)
    requires c.Aligned(io.length)
    ensures Whole(c, io) == io.length
  {
    RoundUpFixed(io.length, c.outBlock);
  }

  /** dd_target_populate_buffer touches one slot and not the queue. */
  lemma PopulateShape(c: Config, s: State, i: nat, rc: int)
    requires i < |s.ios|
    ensures var t := PopulateBuffer(c, s, i, rc);
      && t.ios == s.ios[i := t.ios[i]] && t.queue == s.queue
      && t.output == s.output && t.size == s.size && t.interrupt == s.interrupt
      && (t.ios[i].Active() || t.ios[i].stage == s.ios[i].stage)
  {
    hide RoundUp, Config.Aligned, Config.Start, Config.WriteStart, Config.Copied;
  }

  lemma PopulateKeeps(c: Config, s: State, i: nat, rc: int)
    requires c.Valid() && DataInv(c, s) && i < |s.ios| && !s.ios[i].Active()
    requires s.Halted() || s.pos == c.End() || ClaimOk(c, s.pos, s.ios[i].length)
    ensures DataInv(c, PopulateBuffer(c, s, i, rc))
  {
    hide RoundUp, Config.Aligned, Config.Start, Config.WriteStart, Config.Copied, Done;
    var t := PopulateBuffer(c, s, i, rc);
    var n := Min(s.ios[i].length, c.End() - s.pos);
    assert SlotOk(c, s.pos, s.output, s.size, s.ios[i]);
    if n == 0 || s.Halted() {
      KeepSlot(c, s, t, i);
    } else {
      if c.Aligned(n) {
        AlignedSum(c, s.pos - c.Start(), n);
        assert s.pos - c.Start() + n == s.pos + n - c.Start();
        if t.ios[i].Active() {
          AlignedWhole(c, t.ios[i]);
        }
      }
      ClaimSlot(c, s, t, i);
    }
  }

  /** The chunk cut from the extent of data at `pos` is a legal claim. */
  lemma ExtentClaimOk(c: Config, pos: nat)
    requires c.Valid() && !c.mode.Dense? && PosOk(c, pos) && pos < c.End() && !c.hole[pos]
    ensures var hole := Find(c.hole, pos, true);
      && hole > pos
      && ClaimOk(c, pos, Min(c.unit, hole - pos))
      && (hole >= |c.hole| ==> ClaimOk(c, pos, c.unit))
  {
    hide RoundUp, Config.Aligned, Config.Start, Config.WriteStart;
    var hole := Find(c.hole, pos, true);
    if hole < |c.hole| {
      assert c.hole[hole] && !c.hole[hole - 1];
      AlignedSum(c, hole - c.Start(), pos - c.Start());
      assert hole - c.Start() - (pos - c.Start()) == hole - pos;
    }
  }

  lemma FinalizeKeeps(c: Config, s: State)
    requires DataInv(c, s)
    ensures DataInv(c, FinalizeOutput(c, s))
  {
    hide RoundUp, Config.Aligned, Config.Start, Config.WriteStart, Config.Copied, SlotOk;
    AdvanceKeeps(c, s, s.output, FinalizeOutput(c, s).size);
  }

  lemma SeekKeeps(c: Config, s: State, i: nat, rc: int)
    requires c.Valid() && DataInv(c, s) && SeekInv(c, s) && i < |s.ios| && s.ios[i].stage.Idle?
    ensures DataInv(c, TargetSeek(c, s, i, rc))
  {
    hide RoundUp, Config.Aligned, Config.Start, Config.WriteStart, Config.Copied, Done;
    var t := TargetSeek(c, s, i, rc);
    if c.mode.Dense? {
      if !s.Halted() && s.pos < c.End() {
        DenseClaimOk(c, s, i);
      }
      PopulateKeeps(c, s, i, rc);
    } else if s.pos == c.End() || s.Halted() {
      KeepSlot(c, s, t, i);
    } else if c.mode.SparseFile? {
      FinalizeKeeps(c, s);
      var data := Find(c.hole, s.pos, false);
      if data < |c.hole| {
        ExtentKeeps(c, s, i, rc);
      }
    } else {
      KeepSlot(c, s, t, i);
    }
  }

  lemma DenseClaimOk(c: Config, s: State, i: nat)
    requires c.Valid() && DataInv(c, s) && i < |s.ios| && c.mode.Dense? && !s.Halted() && s.pos < c.End()
    ensures ClaimOk(c, s.pos, s.ios[i].length)
  {
  }

  lemma ExtentKeeps(c: Config, s: State, i: nat, rc: int)
    requires c.Valid() && !c.mode.Dense? && DataInv(c, s) && i < |s.ios| && !s.ios[i].Active()
    requires Find(c.hole, s.pos, false) < |c.hole|
    ensures var data := Find(c.hole, s.pos, false);
            DataInv(c, PopulateBuffer(c, Extent(c, s, i, data, Find(c.hole, data, true)), i, rc))
  {
    hide RoundUp, Config.Aligned, Config.Start, Config.WriteStart, Config.Copied, Done;
    var data := Find(c.hole, s.pos, false);
    var t := Extent(c, s, i, data, Find(c.hole, data, true));
    SkipHole(c, s, data);
    assert SlotOk(c, s.pos, s.output, s.size, s.ios[i]);
    KeepSlot(c, s.(pos := data), t, i);
    ExtentClaimOk(c, data);
    PopulateKeeps(c, t, i, rc);
  }

  // ---- completions ----

  lemma PopulateDoneKeeps(c: Config, s: State, i: nat, res: int, rc: int, rcNext: int)
    requires c.Valid() && DataInv(c, s) && Enabled(s, Complete(i, res, rc, rcNext)) && s.ios[i].stage.Populating?
    ensures DataInv(c, CompletePoll(c, s, i, res, rc, rcNext))
  {
    hide RoundUp, Config.Valid, Config.Aligned, Config.Start, Config.WriteStart, Config.Copied, Done;
    assert SlotOk(c, s.pos, s.output, s.size, s.ios[i]);
    KeepSlot(c, s, CompletePoll(c, s, i, res, rc, rcNext), i);
  }

  lemma ReadDoneKeeps(c: Config, s: State, i: nat, res: int, rc: int, rcNext: int)
    requires c.Valid() && DataInv(c, s) && Enabled(s, Complete(i, res, rc, rcNext)) && s.ios[i].stage.Reading?
    ensures DataInv(c, CompletePoll(c, s, i, res, rc, rcNext))
  {
    hide RoundUp, Config.Valid, Config.Aligned, Config.Start, Config.WriteStart, Config.Copied, Done;
    assert SlotOk(c, s.pos, s.output, s.size, s.ios[i]);
    KeepSlot(c, s, CompletePoll(c, s, i, res, rc, rcNext), i);
  }

  /** The state in which dd_target_seek runs after a write of slot `i` has completed. */
  function Released(s: State, i: nat, res: int): State
    requires i < |s.ios|
  {
    SetStage(if res != 0 then s.(error := res) else s, i, Idle).(outstanding := s.outstanding - 1)
  }

  lemma ReleasedKeeps(c: Config, s: State, i: nat, res: int, rc: int, rcNext: int)
    requires c.Valid() && DataInv(c, s) && SeekInv(c, s)
    requires Enabled(s, Complete(i, res, rc, rcNext)) && s.ios[i].stage.Writing?
    ensures DataInv(c, Released(s, i, res)) && SeekInv(c, Released(s, i, res))
  {
    hide RoundUp, Config.Aligned, Config.Start, Config.WriteStart, Config.Copied, Done;
    assert SlotOk(c, s.pos, s.output, s.size, s.ios[i]);
    KeepSlot(c, s, Released(s, i, res), i);
  }

  lemma SeekDataDoneKeeps(c: Config, s: State, i: nat, rc: int)
    requires c.Valid() && DataInv(c, s) && SeekInv(c, s) && i < |s.ios| && s.ios[i].stage.SeekingData?
    ensures DataInv(c, SeekDataDone(c, s, i, s.ios[i].stage.from, rc))
  {
    hide RoundUp, Config.Aligned, Config.Start, Config.WriteStart, Config.Copied, Done;
    var t := SeekDataDone(c, s, i, s.ios[i].stage.from, rc);
    var data := Find(c.hole, s.pos, false);
    assert SlotOk(c, s.pos, s.output, s.size, s.ios[i]);
    if s.Halted() {
      KeepSlot(c, s, t, i);
    } else if data >= |c.hole| {
      var t0 := SetStage(s, i, Idle).(queue := s.queue[1..], outstanding := s.outstanding - 1);
      KeepSlot(c, s, t0, i);
      FinalizeKeeps(c, t0);
    } else {
      SkipHole(c, s, data);
      KeepSlot(c, s.(pos := data), t, i);
    }
  }

  lemma SeekHoleDoneKeeps(c: Config, s: State, i: nat, rc: int, rcNext: int)
    requires c.Valid() && DataInv(c, s) && SeekInv(c, s) && i < |s.ios| && s.ios[i].stage.SeekingHole?
    ensures DataInv(c, SeekHoleDone(c, s, i, s.ios[i].stage.from, rc, rcNext))
  {
    hide RoundUp, Config.Aligned, Config.Start, Config.WriteStart, Config.Copied, Done, PopulateBuffer, StartNextSeek, Find;
    var t := SeekHoleDone(c, s, i, s.ios[i].stage.from, rc, rcNext);
    assert SlotOk(c, s.pos, s.output, s.size, s.ios[i]);
    if s.Halted() {
      KeepSlot(c, s, t, i);
    } else {
      var hole := Find(c.hole, s.pos, true);
      ExtentClaimOk(c, s.pos);
      var s1 := HoleFound(c, s, i, hole);
      KeepSlot(c, s, s1, i);
      PopulateKeeps(c, s1, i, rc);
      PopulateShape(c, s1, i, rc);
      NextSeekKeeps(c, PopulateBuffer(c, s1, i, rc), rcNext);
    }
  }

  lemma NextSeekKeeps(c: Config, s: State, rc: int)
    requires DataInv(c, s)
    requires s.queue != [] && s.queue[0] < |s.ios| ==> !s.ios[s.queue[0]].Active()
    ensures DataInv(c, StartNextSeek(c, s, rc))
  {
    hide RoundUp, Config.Aligned, Config.Start, Config.WriteStart, Config.Copied, Done;
    if s.queue != [] && s.queue[0] < |s.ios| {
      assert SlotOk(c, s.pos, s.output, s.size, s.ios[s.queue[0]]);
      KeepSlot(c, s, StartNextSeek(c, s, rc), s.queue[0]);
    }
  }

  /** Every event keeps the data invariant. */
  lemma StepKeepsData(c: Config, s: State, e: Event)
    requires c.Valid() && DataInv(c, s) && SeekInv(c, s) && Enabled(s, e)
    ensures DataInv(c, Step(c, s, e))
  {
    hide RoundUp, Config.Aligned, Config.Start, Config.WriteStart, Config.Copied, Done, SlotOk;
    match e
    case Device(i) =>
      if s.ios[i].stage.Writing? {
        WriteTransferKeeps(c, s, i);
      } else {
        ReadTransferKeeps(c, s, i);
      }
    case Complete(i, res, rc, rcNext) =>
      match s.ios[i].stage {
        case Writing =>
          ReleasedKeeps(c, s, i, res, rc, rcNext);
          SeekKeeps(c, Released(s, i, res), i, rc);
        case SeekingData(_) => SeekDataDoneKeeps(c, s, i, rc);
        case SeekingHole(_) => SeekHoleDoneKeeps(c, s, i, rc, rcNext);
        case Reading => ReadDoneKeeps(c, s, i, res, rc, rcNext);
        case _ => PopulateDoneKeeps(c, s, i, res, rc, rcNext);
      }
    case _ =>
  }

  // ---- the seek queue along a run ----

  /** Events that leave the queue and every queued slot alone. */
  lemma QueueKept(c: Config, s: State, t: State, i: nat)
    requires SeekInv(c, s) && i < |s.ios| && |t.ios| == |s.ios| && t.ios == s.ios[i := t.ios[i]]
    requires t.queue == s.queue && !s.ios[i].Seeking() && !s.ios[i].stage.Waiting?
    requires !t.ios[i].Seeking() && !t.ios[i].stage.Waiting?
    requires t.pos == s.pos || forall j :: 0 <= j < |s.ios| ==> !s.ios[j].Seeking()
    ensures SeekInv(c, t)
  {
  }

  lemma SeekKeepsQueue(c: Config, s: State, i: nat, rc: int)
    requires SeekInv(c, s) && i < |s.ios| && s.ios[i].stage.Idle?
    ensures SeekInv(c, TargetSeek(c, s, i, rc))
  {
    hide PopulateBuffer, Config.Start, Find;
    var t := TargetSeek(c, s, i, rc);
    if c.mode.SparseBdev? {
      EnqueueKeepsQueue(c, s, i, rc);
    } else {
      assert s.queue == [];
      var data := Find(c.hole, s.pos, false);
      PopulateShape(c, s, i, rc);
      PopulateShape(c, Extent(c, s, i, data, Find(c.hole, data, true)), i, rc);
      QueueKept(c, s, t, i);
    }
  }

  lemma EnqueueKeepsQueue(c: Config, s: State, i: nat, rc: int)
    requires SeekInv(c, s) && i < |s.ios| && s.ios[i].stage.Idle? && c.mode.SparseBdev?
    ensures var s1 := SetStage(s, i, Waiting).(queue := s.queue + [i]);
      && SeekInv(c, s1)
      && (s.queue == [] ==> SeekInv(c, Submit(s1, i, SeekingData(s.pos), rc)))
  {
    var s1 := SetStage(s, i, Waiting).(queue := s.queue + [i]);
    assert i !in s.queue;
    forall j | 0 <= j < |s.ios|
      ensures s1.ios[j].Seeking() || s1.ios[j].stage.Waiting? <==> j in s1.queue
      ensures s1.ios[j].Seeking() ==> s1.queue[0] == j && SeekOk(c, s1.pos, s1.ios[j].stage)
    {
      assert j in s1.queue <==> j in s.queue || j == i;
      assert j != i ==> s1.ios[j] == s.ios[j];
    }
    assert SeekInv(c, s1);
    if s.queue == [] {
      HeadSeeks(c, s1, rc);
    }
  }

  /** The head of the queue starts its seek at the current position. */
  lemma HeadSeeks(c: Config, s: State, rc: int)
    requires SeekInv(c, s) && s.queue != []
    requires forall j :: 0 <= j < |s.ios| && s.ios[j].Seeking() ==> j == s.queue[0]
    ensures SeekInv(c, Submit(s, s.queue[0], SeekingData(s.pos), rc))
  {
    assert s.queue[0] in s.queue;
  }

  /** Dropping the head of the queue, whose slot no longer seeks. */
  lemma DequeueKeepsQueue(c: Config, s: State, t: State, i: nat)
    requires SeekInv(c, s) && i < |s.ios| && s.ios[i].Seeking()
    requires |t.ios| == |s.ios| && t.ios == s.ios[i := t.ios[i]] && t.queue == s.queue[1..]
    requires !t.ios[i].Seeking() && !t.ios[i].stage.Waiting?
    ensures SeekInv(c, t) && forall j :: 0 <= j < |t.ios| ==> !t.ios[j].Seeking()
  {
    assert s.queue == [s.queue[0]] + s.queue[1..];
    forall j | 0 <= j < |t.ios|
      ensures t.ios[j].Seeking() || t.ios[j].stage.Waiting? <==> j in t.queue
      ensures !t.ios[j].Seeking()
    {
      assert j != i ==> t.ios[j] == s.ios[j];
      assert j in s.queue <==> j == s.queue[0] || j in t.queue;
    }
  }

  lemma NextSeekKeepsQueue(c: Config, s: State, rc: int)
    requires SeekInv(c, s) && forall j :: 0 <= j < |s.ios| ==> !s.ios[j].Seeking()
    ensures SeekInv(c, StartNextSeek(c, s, rc))
  {
    if s.queue != [] {
      HeadSeeks(c, s, rc);
    }
  }

  lemma SeekDoneKeepsQueue(c: Config, s: State, i: nat, rc: int, rcNext: int)
    requires SeekInv(c, s) && i < |s.ios| && s.ios[i].Seeking()
    ensures SeekInv(c, CompletePoll(c, s, i, 0, rc, rcNext))
  {
    hide PopulateBuffer, Config.Start, Find, StartNextSeek;
    var t := CompletePoll(c, s, i, 0, rc, rcNext);
    if s.Halted() || s.ios[i].stage.SeekingData? {
      if t.ios[i].stage.SeekingHole? {
        assert SeekOk(c, s.pos, s.ios[i].stage);
      } else {
        DequeueKeepsQueue(c, s, t, i);
      }
    } else {
      var s1 := HoleFound(c, s, i, Find(c.hole, s.ios[i].stage.from, true));
      PopulateShape(c, s1, i, rc);
      DequeueKeepsQueue(c, s, PopulateBuffer(c, s1, i, rc), i);
      NextSeekKeepsQueue(c, PopulateBuffer(c, s1, i, rc), rcNext);
    }
  }

  lemma SameQueue(c: Config, s: State, t: State)
    requires SeekInv(c, s) && t.ios == s.ios && t.queue == s.queue && t.pos == s.pos
    ensures SeekInv(c, t)
  {
  }

  lemma TransferKeepsQueue(c: Config, s: State, i: nat)
    requires SeekInv(c, s) && i < |s.ios|
    ensures SeekInv(c, Transfer(c, s, i))
  {
    hide RoundUp, Fetch, Store;
    assert forall j :: 0 <= j < |s.ios| ==> Transfer(c, s, i).ios[j].stage == s.ios[j].stage;
  }

  lemma ChunkDoneKeepsQueue(c: Config, s: State, i: nat, res: int, rc: int, rcNext: int)
    requires SeekInv(c, s) && i < |s.ios| && (s.ios[i].stage.Populating? || s.ios[i].stage.Reading?)
    ensures SeekInv(c, CompletePoll(c, s, i, res, rc, rcNext))
  {
    hide SeekInv;
    QueueKept(c, s, CompletePoll(c, s, i, res, rc, rcNext), i);
  }

  /** Every event keeps the queue discipline. */
  lemma StepKeepsQueue(c: Config, s: State, e: Event)
    requires SeekInv(c, s) && Enabled(s, e)
    ensures SeekInv(c, Step(c, s, e))
  {
    hide RoundUp, TargetRead, TargetWrite, TargetSeek, SeekDataDone, SeekHoleDone, SeekInv;
    match e
    case Device(i) => TransferKeepsQueue(c, s, i);
    case Complete(i, res, rc, rcNext) =>
      if s.ios[i].Seeking() {
        SeekDoneKeepsQueue(c, s, i, rc, rcNext);
      } else if s.ios[i].stage.Writing? {
        QueueKept(c, s, Released(s, i, res), i);
        SeekKeepsQueue(c, Released(s, i, res), i, rc);
      } else {
        ChunkDoneKeepsQueue(c, s, i, res, rc, rcNext);
      }
    case _ => SameQueue(c, s, Step(c, s, e));
  }
}
