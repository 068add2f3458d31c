/** The copy engine as the program has it: one job whose fields the callbacks update in place. */
module DdJob {
  import opened Basics
  import opened Arith
  import opened DdModel
  import opened DdTheorems

  class Job {
    const cfg: Config
    var pos: nat
    var outstanding: int
    var ios: seq<Io>
    var seekQueue: seq<nat>
    var output: seq<Byte>
    var size: nat
    var totalBytes: nat
    var incrementalBytes: nat
    var error: int
    var interrupt: bool
    var exits: seq<int>

    /** The job as a value of the model. */
    function Snapshot(): State
      reads this
    {
      State(pos, outstanding, ios, seekQueue, output, size, totalBytes, incrementalBytes, error, interrupt, exits)
    }

    constructor (c: Config, buf: seq<Byte>, interrupted: bool)
      ensures cfg == c && Snapshot() == Fresh(c, buf, interrupted)
    {
      cfg := c;
      pos, outstanding, seekQueue := c.Start(), 0, [];
      ios := seq(c.depth, _ => Io(0, c.unit, Idle, false, buf));
      output, size := c.output0, c.size0;
      totalBytes, incrementalBytes, error, interrupt, exits := 0, 0, 0, interrupted, [];
    }

    method ShowProgress()
      modifies this
      ensures Snapshot() == DdModel.ShowProgress(old(Snapshot()))
    {
      totalBytes := totalBytes + incrementalBytes;
      incrementalBytes := 0;
    }

    method Exit(rc: int)
      modifies this
      ensures Snapshot() == DdModel.Exit(old(Snapshot()), rc)
    {
      exits := exits + [rc];
    }

    method StopReporting()
      modifies this
      ensures Snapshot() == DdModel.StopReporting(old(Snapshot()))
    {
      if outstanding == 0 {
        if error == 0 {
          ShowProgress();
        }
        Exit(error);
      }
    }

    method FinalizeOutput()
      modifies this
      ensures Snapshot() == DdModel.FinalizeOutput(cfg, old(Snapshot()))
    {
      if outstanding > 0 {
        return;
      }
      if cfg.fileOutput && size < cfg.copySize + cfg.WriteStart() {
        size := cfg.copySize + cfg.WriteStart();
      }
      StopReporting();
    }

    method SetStage(i: nat, stage: Stage)
      requires i < |ios|
      modifies this`ios
      ensures Snapshot() == DdModel.SetStage(old(Snapshot()), i, stage)
    {
      ios := ios[i := ios[i].(stage := stage, applied := false)];
    }

    /** The submission with result `rc` that every pipeline function ends with. */
    method Submit(i: nat, stage: Stage, rc: int)
      requires i < |ios|
      modifies this
      ensures Snapshot() == DdModel.Submit(old(Snapshot()), i, stage, rc)
    {
      outstanding := outstanding + 1;
      if rc != 0 {
        outstanding := outstanding - 1;
        error := rc;
        if outstanding == 0 {
          Exit(rc);
        }
        return;
      }
      SetStage(i, stage);
    }

    method TargetWrite(i: nat, rc: int)
      requires i < |ios|
      modifies this
      ensures Snapshot() == DdModel.TargetWrite(cfg, old(Snapshot()), i, rc)
    {
      if error != 0 || interrupt {
        StopReporting();
        return;
      }
      incrementalBytes := incrementalBytes + ios[i].length;
      Submit(i, Writing, rc);
    }

    method TargetRead(i: nat, rc: int)
      requires i < |ios|
      modifies this
      ensures Snapshot() == DdModel.TargetRead(cfg, old(Snapshot()), i, rc)
    {
      if error != 0 || interrupt {
        if outstanding == 0 {
          Exit(error);
        }
        return;
      }
      Submit(i, Reading, rc);
    }

    method PopulateBuffer(i: nat, rc: int)
      requires i < |ios|
      modifies this
      ensures Snapshot() == DdModel.PopulateBuffer(cfg, old(Snapshot()), i, rc)
    {
      var readOffset := Sub64(pos, cfg.Start());
      var length := Min(ios[i].length, Sub64(cfg.copySize, readOffset));
      ios := ios[i := ios[i].(offset := pos, length := length)];
      if length == 0 || error != 0 || interrupt {
        StopReporting();
        return;
      }
      pos := pos + length;
      if cfg.Aligned(length) {
        TargetRead(i, rc);
        return;
      }
      Submit(i, Populating, rc);
    }

    method TargetSeek(i: nat, rc: int)
      requires i < |ios|
      modifies this
      ensures Snapshot() == DdModel.TargetSeek(cfg, old(Snapshot()), i, rc)
    {
      hide DdModel.PopulateBuffer, Config.Start, Config.WriteStart, Config.Aligned, Find;
      if cfg.mode.Dense? {
        PopulateBuffer(i, rc);
        return;
      }
      if Sub64(cfg.copySize, Sub64(pos, cfg.Start())) == 0 || error != 0 || interrupt {
        StopReporting();
        return;
      }
      if cfg.mode.SparseFile? {
        var data := Find(cfg.hole, pos, false);
        if data >= |cfg.hole| {
          FinalizeOutput();
          return;
        }
        if data > pos {
          pos := data;
        }
        var hole := Find(cfg.hole, pos, true);
        var length := if hole > pos then Min(cfg.unit, hole - pos) else cfg.unit;
        ios := ios[i := ios[i].(length := length)];
        PopulateBuffer(i, rc);
      } else {
        var first := seekQueue == [];
        SetStage(i, Waiting);
        seekQueue := seekQueue + [i];
        if first {
          Submit(i, SeekingData(pos), rc);
        }
      }
    }

    method SeekDataDone(i: nat, from: nat, rc: int)
      requires i < |ios|
      modifies this
      ensures Snapshot() == DdModel.SeekDataDone(cfg, old(Snapshot()), i, from, rc)
    {
      hide Config.Start, Config.WriteStart, Config.Aligned, Find;
      var rest := if seekQueue == [] then [] else seekQueue[1..];
      if error != 0 || interrupt {
        SetStage(i, Idle);
        seekQueue := rest;
        StopReporting();
        return;
      }
      outstanding := outstanding - 1;
      var data := Find(cfg.hole, from, false);
      if data >= |cfg.hole| {
        SetStage(i, Idle);
        seekQueue := rest;
        FinalizeOutput();
        return;
      }
      pos := data;
      if rc != 0 {
        SetStage(i, Idle);
        seekQueue := rest;
        error := rc;
        if outstanding == 0 {
          Exit(rc);
        }
        return;
      }
      outstanding := outstanding + 1;
      SetStage(i, SeekingHole(data));
    }

    method SeekHoleDone(i: nat, from: nat, rc: int, rcNext: int)
      requires i < |ios|
      modifies this
      ensures Snapshot() == DdModel.SeekHoleDone(cfg, old(Snapshot()), i, from, rc, rcNext)
    {
      hide DdModel.PopulateBuffer, Config.Start, Config.WriteStart, Config.Aligned, Find;
      seekQueue := if seekQueue == [] then [] else seekQueue[1..];
      if error != 0 || interrupt {
        SetStage(i, Idle);
        StopReporting();
        return;
      }
      outstanding := outstanding - 1;
      var hole := Find(cfg.hole, from, true);
      var length := if hole >= |cfg.hole| then cfg.unit else Min(cfg.unit, Sub64(hole, pos));
      ios := ios[i := ios[i].(length := length, stage := Idle, applied := false)];
      PopulateBuffer(i, rc);
      if seekQueue != [] && pos < |cfg.input| && seekQueue[0] < |ios| {
        Submit(seekQueue[0], SeekingData(pos), rcNext);
      }
    }

    method CompletePoll(i: nat, res: int, rc: int, rcNext: int)
      requires i < |ios|
      modifies this
      ensures Snapshot() == DdModel.CompletePoll(cfg, old(Snapshot()), i, res, rc, rcNext)
    {
      hide DdModel.TargetRead, DdModel.TargetWrite, DdModel.TargetSeek, DdModel.SeekDataDone, DdModel.SeekHoleDone;
      var stage := ios[i].stage;
      if !ios[i].InFlight() {
        return;
      }
      if res != 0 {
        error := res;
      }
      if stage.SeekingData? {
        SeekDataDone(i, stage.from, rc);
        return;
      }
      if stage.SeekingHole? {
        SeekHoleDone(i, stage.from, rc, rcNext);
        return;
      }
      outstanding := outstanding - 1;
      SetStage(i, Idle);
      if stage.Populating? {
        TargetRead(i, rc);
      } else if stage.Reading? {
        TargetWrite(i, rc);
      } else {
        TargetSeek(i, rc);
      }
    }

    /** The device moves the bytes of the operation slot `i` has submitted. */
    method Transfer(i: nat)
      requires i < |ios|
      modifies this
      ensures Snapshot() == DdModel.Transfer(cfg, old(Snapshot()), i)
    {
      var io := ios[i];
      var at, whole := cfg.At(io.offset), RoundUp(io.length, cfg.outBlock);
      match io.stage
      case Populating => ios := ios[i := io.(applied := true, buf := Fetch(output, at, whole, io.buf))];
      case Reading => ios := ios[i := io.(applied := true, buf := Fetch(cfg.input, io.offset, io.length, io.buf))];
      case Writing =>
        ios := ios[i := io.(applied := true)];
        output := Store(output, at, whole, io.buf);
        if at >= 0 && at + whole > size {
          size := at + whole;
        }
      case _ => ios := ios[i := io.(applied := true)];
    }

    /** The loop at the end of dd_run. */
    method StartSlots(rcs: seq<int>)
      requires |rcs| == |ios|
      modifies this
      ensures Snapshot() == DdModel.StartSlots(cfg, old(Snapshot()), 0, rcs)
    {
      assert rcs[0..] == rcs;
      for i := 0 to |rcs|
        invariant |ios| == |rcs|
        invariant DdModel.StartSlots(cfg, Snapshot(), i, rcs[i..]) == DdModel.StartSlots(cfg, old(Snapshot()), 0, rcs)
      {
        assert rcs[i..][0] == rcs[i] && rcs[i..][1..] == rcs[i + 1..];
        TargetSeek(i, rcs[i]);
      }
    }

    method Handle(e: Event)
      requires Enabled(Snapshot(), e)
      modifies this
      ensures Snapshot() == Step(cfg, old(Snapshot()), e)
    {
      match e
      case Device(i) => Transfer(i);
      case Complete(i, res, rc, rcNext) => CompletePoll(i, res, rc, rcNext);
      case Interrupt => interrupt := true;
      case StatusPoll => ShowProgress();
    }

    /** The event loop, fed with events in any order until one cannot happen: the job goes through a run of the model,
        so everything proved about runs holds of it. */
    method Serve(es: seq<Event>) returns (k: nat)
      modifies this
      ensures k <= |es| && Run(cfg, old(Snapshot()), es[..k], Snapshot())
      ensures k < |es| ==> !Enabled(Snapshot(), es[k])
      ensures cfg.Valid() && Inv(cfg, old(Snapshot())) ==> Inv(cfg, Snapshot())
      ensures cfg.Valid() && Inv(cfg, old(Snapshot())) && exits != [] && error == 0 && !interrupt ==>
                output == SliceCopy(cfg)
    {
      hide Inv, Config.Valid, SliceCopy, Run, Step;
      k := 0;
      ghost var s := Snapshot();
      RunNil(cfg, s);
      while k < |es| && Enabled(Snapshot(), es[k])
        invariant k <= |es| && Run(cfg, s, es[..k], Snapshot())
      {
        RunSnoc(cfg, s, es[..k], Snapshot(), es[k]);
        assert es[..k] + [es[k]] == es[..k + 1];
        Handle(es[k]);
        k := k + 1;
      }
      if cfg.Valid() && Inv(cfg, s) {
        RunKeeps(cfg, s, es[..k], Snapshot());
        if exits != [] && error == 0 && !interrupt {
          CleanExit(cfg, Snapshot());
        }
      }
    }
  }

  /** dd_run and the event loop on a new job: whatever happens is an execution of the model. */
  method Copy(c: Config, buf: seq<Byte>, interrupted: bool, rcs: seq<int>, es: seq<Event>) returns (job: Job, k: nat)
    requires c.Valid() && c.depth > 0 && |buf| == c.unit && |rcs| == c.depth
    ensures fresh(job) && job.cfg == c && k <= |es| && (k < |es| ==> !Enabled(job.Snapshot(), es[k]))
    ensures Execution(c, buf, interrupted, rcs, es[..k], job.Snapshot())
    ensures job.exits != [] && job.error == 0 && !job.interrupt ==> job.output == SliceCopy(c)
  {
    hide Inv, Config.Valid, SliceCopy, Run, DdModel.StartSlots;
    job := new Job(c, buf, interrupted);
    job.StartSlots(rcs);
    StartUp(c, buf, interrupted, rcs);
    k := job.Serve(es);
  }
}
