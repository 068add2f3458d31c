/**
 The asynchronous copy engine of spdk_dd: every pipeline function of the program as a function
 on the job state, and the events (device transfers, completions, interrupt, status poller) that
 drive it.  Completions and transfers may happen in any order.
 */
module DdModel {
  import opened Basics
  import opened Arith

  datatype Mode = Dense | SparseFile | SparseBdev

  /** What stays fixed once dd_run has started the pipeline. `hole` marks the unallocated bytes of
      the input; `output0` and `size0` are the output's bytes and file size before the copy. */
  datatype Config = Config(
    input: seq<Byte>, hole: seq<bool>, output0: seq<Byte>, size0: nat, fileOutput: bool,
    outBlock: Positive, unit: Positive, skip: nat, seek: nat, copySize: nat, depth: nat, mode: Mode)
  {
    function Start(): nat { skip * unit }

    function End(): nat { Start() + copySize }

    function WriteStart(): nat { seek * unit }

    /** Output address of the input byte `p`. */
    function At(p: nat): int { WriteStart() + (p - Start()) }

    /** The bytes the engine moves: all of them, or in sparse mode those outside holes. */
    predicate Copied(p: nat) { mode.Dense? || (p < |hole| && !hole[p]) }

    /** A multiple of the output's block size. */
    predicate Aligned(x: int) { x % outBlock == 0 }

    ghost predicate Valid() {
      && Aligned(unit)
      && End() <= |input| < TWO64
      && WriteStart() + copySize <= |output0| < TWO64
      && Aligned(|output0|)
      && (!mode.Dense? ==> ValidSparse())
    }

    /** Sparse copies: no --count, holes read as zeros, hole edges on output blocks, zeroed output. */
    ghost predicate ValidSparse() {
      && |hole| == |input| == End()
      && WriteStart() + copySize <= |output0|
      && (forall p :: 0 <= p < |input| && hole[p] ==> input[p] == 0)
      && (forall p :: Start() < p < |input| && hole[p] != hole[p - 1] ==> Aligned(p - Start()))
      && (forall q :: WriteStart() <= q < WriteStart() + copySize ==> output0[q] == 0)
    }
  }

  /** `type` of a dd_io together with whether its operation is still in flight. The seek stages carry
      the position that was submitted; `Waiting` slots sit in seek_queue without an operation. */
  datatype Stage =
    | Idle | Populating | Reading | Writing
    | SeekingData(from: nat) | SeekingHole(from: nat) | Waiting

  datatype Io = Io(offset: nat, length: nat, stage: Stage, applied: bool, buf: seq<Byte>) {
    /** The slot holds a chunk that is being moved. */
    predicate Active() { stage.Populating? || stage.Reading? || stage.Writing? }

    predicate Seeking() { stage.SeekingData? || stage.SeekingHole? }

    predicate InFlight() { Active() || Seeking() }

    predicate Holds(p: nat) { Active() && offset <= p < offset + length }
  }

  /** The mutable globals: g_job, g_error, g_interrupt, the output device, and the dd_exit calls made. */
  datatype State = State(
    pos: nat, outstanding: int, ios: seq<Io>, queue: seq<nat>,
    output: seq<Byte>, size: nat, total: nat, incremental: nat,
    error: int, interrupt: bool, exits: seq<int>)
  {
    predicate Halted() { error != 0 || interrupt }
  }

  /** Unsigned 64-bit subtraction. */
  function Sub64(a: nat, b: nat): nat {
    if b <= a then a - b else if b <= a + TWO64 then a + TWO64 - b else 0
  }

  /** Least position from `p` on whose hole flag is `want`; at least `|hole|` when there is none. */
  function Find(hole: seq<bool>, p: nat, want: bool): (q: nat)
    ensures p <= q && (p <= |hole| ==> q <= |hole|)
    ensures forall k :: p <= k < q && k < |hole| ==> hole[k] != want
    ensures q < |hole| ==> hole[q] == want
    decreases |hole| - p
  {
    if p >= |hole| || hole[p] == want then p else Find(hole, p + 1, want)
  }

  /** Bytes `[at, at + n)` of `s`, placed over the front of `buf`. */
  function Fetch(s: seq<Byte>, at: int, n: nat, buf: seq<Byte>): (r: seq<Byte>)
    ensures |r| == |buf|
    ensures 0 <= at && at + n <= |s| && n <= |buf| ==>
              forall k :: 0 <= k < |r| ==> r[k] == if k < n then s[at + k] else buf[k]
  {
    if 0 <= at && at + n <= |s| && n <= |buf| then s[at..at + n] + buf[n..] else buf
  }

  /** `s` with the first `n` bytes of `buf` placed at `at`. */
  function Store(s: seq<Byte>, at: int, n: nat, buf: seq<Byte>): (r: seq<Byte>)
    ensures |r| == |s|
    ensures 0 <= at && at + n <= |s| && n <= |buf| ==>
              forall q :: 0 <= q < |r| ==> r[q] == if at <= q < at + n then buf[q - at] else s[q]
  {
    if 0 <= at && at + n <= |s| && n <= |buf| then s[..at] + buf[..n] + s[at + n..] else s
  }

  // ---- dd_show_progress, dd_exit and the shared tails of the pipeline functions ----

  function ShowProgress(s: State): State {
    s.(total := s.total + s.incremental, incremental := 0)
  }

  function Exit(s: State, rc: int): State {
    s.(exits := s.exits + [rc])
  }

  /** Give up if nothing is outstanding, reporting the totals unless there was an error. */
  function StopReporting(s: State): State {
    if s.outstanding == 0 then Exit(if s.error == 0 then ShowProgress(s) else s, s.error) else s
  }

  function StopSilently(s: State): State {
    if s.outstanding == 0 then Exit(s, s.error) else s
  }

  function FinalizeOutput(c: Config, s: State): State {
    if s.outstanding > 0 then s
    else StopReporting(if c.fileOutput then s.(size := Max(s.size, c.copySize + c.WriteStart())) else s)
  }

  function SetStage(s: State, i: nat, stage: Stage): (t: State)
    requires i < |s.ios|
    ensures |t.ios| == |s.ios|
  {
    s.(ios := s.ios[i := s.ios[i].(stage := stage, applied := false)])
  }

  /** outstanding++, submit, and on a submission error undo the count, record it and maybe exit. */
  function Submit(s: State, i: nat, stage: Stage, rc: int): (t: State)
    requires i < |s.ios|
    ensures |t.ios| == |s.ios|
  {
    if rc == 0 then SetStage(s.(outstanding := s.outstanding + 1), i, stage) else Failed(s, rc)
  }

  function Failed(s: State, rc: int): State {
    StopSilently(s.(error := rc))
  }

  // ---- the pipeline ----

  function TargetWrite(c: Config, s: State, i: nat, rc: int): (t: State)
    requires i < |s.ios|
    ensures |t.ios| == |s.ios|
  {
    if s.Halted() then StopReporting(s)
    else Submit(s.(incremental := s.incremental + s.ios[i].length), i, Writing, rc)
  }

  function TargetRead(c: Config, s: State, i: nat, rc: int): (t: State)
    requires i < |s.ios|
    ensures |t.ios| == |s.ios|
  {
    if s.Halted() then StopSilently(s) else Submit(s, i, Reading, rc)
  }

  function PopulateBuffer(c: Config, s: State, i: nat, rc: int): (t: State)
    requires i < |s.ios|
    ensures |t.ios| == |s.ios|
  {
    var readOffset := Sub64(s.pos, c.Start());
    var length := Min(s.ios[i].length, Sub64(c.copySize, readOffset));
    var s1 := s.(ios := s.ios[i := s.ios[i].(offset := s.pos, length := length)]);
    if length == 0 || s.Halted() then StopReporting(s1)
    else
      var s2 := s1.(pos := s.pos + length);
      if c.Aligned(length) then TargetRead(c, s2, i, rc) else Submit(s2, i, Populating, rc)
  }

  function TargetSeek(c: Config, s: State, i: nat, rc: int): (t: State)
    requires i < |s.ios|
    ensures |t.ios| == |s.ios|
  {
    if c.mode.Dense? then PopulateBuffer(c, s, i, rc)
    else if Sub64(c.copySize, Sub64(s.pos, c.Start())) == 0 || s.Halted() then StopReporting(s)
    else if c.mode.SparseFile? then
      var data := Find(c.hole, s.pos, false);
      if data >= |c.hole| then FinalizeOutput(c, s)
      else
        var hole := Find(c.hole, data, true);
        PopulateBuffer(c, Extent(c, s, i, data, hole), i, rc)
    else
      var s1 := SetStage(s, i, Waiting).(queue := s.queue + [i]);
      if s.queue == [] then Submit(s1, i, SeekingData(s.pos), rc) else s1
  }

  /** Moves the position to the data at `data` and gives slot `i` at most the extent up to `hole`. */
  function Extent(c: Config, s: State, i: nat, data: nat, hole: nat): (t: State)
    requires i < |s.ios|
    ensures |t.ios| == |s.ios|
  {
    var length := if hole > data then Min(c.unit, hole - data) else c.unit;
    s.(pos := data, ios := s.ios[i := s.ios[i].(length := length)])
  }

  /** _dd_bdev_seek_data_done for the seek submitted at `from`. */
  function SeekDataDone(c: Config, s: State, i: nat, from: nat, rc: int): (t: State)
    requires i < |s.ios|
    ensures |t.ios| == |s.ios|
  {
    var popped := Dequeue(s, i);
    if s.Halted() then StopReporting(popped)
    else
      var data := Find(c.hole, from, false);
      if data >= |c.hole| then FinalizeOutput(c, popped.(outstanding := s.outstanding - 1))
      else if rc != 0 then Failed(popped.(outstanding := s.outstanding - 1, pos := data), rc)
      else SetStage(s.(pos := data), i, SeekingHole(data))
  }

  /** _dd_bdev_seek_hole_done: claim a chunk, then let the next queued slot seek. */
  function SeekHoleDone(c: Config, s: State, i: nat, from: nat, rc: int, rcNext: int): (t: State)
    requires i < |s.ios|
    ensures |t.ios| == |s.ios|
  {
    if s.Halted() then StopReporting(Dequeue(s, i))
    else StartNextSeek(c, PopulateBuffer(c, HoleFound(c, s, i, Find(c.hole, from, true)), i, rc), rcNext)
  }

  /** The finished seek of slot `i` leaves the head of the queue. */
  function Dequeue(s: State, i: nat): (t: State)
    requires i < |s.ios|
    ensures |t.ios| == |s.ios|
  {
    SetStage(s, i, Idle).(queue := if s.queue == [] then [] else s.queue[1..])
  }

  function HoleFound(c: Config, s: State, i: nat, hole: nat): (t: State)
    requires i < |s.ios|
    ensures |t.ios| == |s.ios|
  {
    var length := if hole >= |c.hole| then c.unit else Min(c.unit, Sub64(hole, s.pos));
    s.(outstanding := s.outstanding - 1, queue := if s.queue == [] then [] else s.queue[1..],
       ios := s.ios[i := s.ios[i].(length := length, stage := Idle, applied := false)])
  }

  function StartNextSeek(c: Config, s: State, rc: int): State {
    if s.queue != [] && s.pos < |c.input| && s.queue[0] < |s.ios|
    then Submit(s, s.queue[0], SeekingData(s.pos), rc)
    else s
  }

  /** A completion of slot `i` with device result `res`: dd_complete_poll, or the bdev callbacks. */
  function CompletePoll(c: Config, s: State, i: nat, res: int, rc: int, rcNext: int): (t: State)
    requires i < |s.ios|
    ensures |t.ios| == |s.ios|
  {
    var s0 := if res != 0 then s.(error := res) else s;
    var s1 := SetStage(s0, i, Idle).(outstanding := s.outstanding - 1);
    match s.ios[i].stage
    case Populating => TargetRead(c, s1, i, rc)
    case Reading => TargetWrite(c, s1, i, rc)
    case Writing => TargetSeek(c, s1, i, rc)
    case SeekingData(from) => SeekDataDone(c, s0, i, from, rc)
    case SeekingHole(from) => SeekHoleDone(c, s0, i, from, rc, rcNext)
    case _ => s
  }

  /** The device carries out the transfer that slot `i` has submitted. */
  function Transfer(c: Config, s: State, i: nat): (t: State)
    requires i < |s.ios|
    ensures |t.ios| == |s.ios|
  {
    var io := s.ios[i];
    var at, whole := c.At(io.offset), RoundUp(io.length, c.outBlock);
    match io.stage
    case Populating => s.(ios := s.ios[i := io.(applied := true, buf := Fetch(s.output, at, whole, io.buf))])
    case Reading => s.(ios := s.ios[i := io.(applied := true, buf := Fetch(c.input, io.offset, io.length, io.buf))])
    case Writing => s.(ios := s.ios[i := io.(applied := true)],
                       output := Store(s.output, at, whole, io.buf),
                       size := if at >= 0 then Max(s.size, at + whole) else s.size)
    case _ => s.(ios := s.ios[i := io.(applied := true)])
  }

  // ---- runs ----

  /** What can happen between two activations of the event loop. `rc` and `rcNext` are the results of
      the submissions the completion makes; `res` is the device's verdict on the completed operation. */
  datatype Event =
    | Device(slot: nat)
    | Complete(slot: nat, res: int, rc: int, rcNext: int)
    | Interrupt
    | StatusPoll

  /** Nothing happens after dd_exit; an operation completes once, and successfully only after its transfer.
      A failing seek answer is not modelled (the callbacks never look at `success`). */
  predicate Enabled(s: State, e: Event) {
    && s.exits == []
    && match e
       case Device(i) => i < |s.ios| && s.ios[i].InFlight() && !s.ios[i].applied
       case Complete(i, res, _, _) =>
         && i < |s.ios| && s.ios[i].InFlight()
         && (if s.ios[i].applied then s.ios[i].Seeking() ==> res == 0 else res != 0 && s.ios[i].Active())
       case _ => true
  }

  function Step(c: Config, s: State, e: Event): State
    requires Enabled(s, e)
  {
    match e
    case Device(i) => Transfer(c, s, i)
    case Complete(i, res, rc, rcNext) => CompletePoll(c, s, i, res, rc, rcNext)
    case Interrupt => s.(interrupt := true)
    case StatusPoll => ShowProgress(s)
  }

  /** The job as dd_run leaves it just before starting the slots. `buf` is whatever the buffers held. */
  function Fresh(c: Config, buf: seq<Byte>, interrupted: bool): State {
    State(c.Start(), 0, seq(c.depth, _ => Io(0, c.unit, Idle, false, buf)), [], c.output0, c.size0, 0, 0,
          0, interrupted, [])
  }

  /** The start-up loop of dd_run over the slots from `i` on. */
  function StartSlots(c: Config, s: State, i: nat, rcs: seq<int>): State
    requires i + |rcs| == |s.ios|
    decreases |rcs|
  {
    if rcs == [] then s
    else StartSlots(c, TargetSeek(c, s, i, rcs[0]), i + 1, rcs[1..])
  }

  /** `es` is a possible run from `s`, ending in `t`. */
  ghost predicate Run(c: Config, s: State, es: seq<Event>, t: State)
    decreases |es|
  {
    if es == [] then s == t else Enabled(s, es[0]) && Run(c, Step(c, s, es[0]), es[1..], t)
  }

  lemma RunNil(c: Config, s: State)
    ensures Run(c, s, [], s)
  {
  }

  lemma {:induction false} RunSnoc(c: Config, s: State, es: seq<Event>, t: State, e: Event)
    requires Run(c, s, es, t) && Enabled(t, e)
    ensures Run(c, s, es + [e], Step(c, t, e))
    decreases |es|
  {
    hide Step, Enabled;
    if es == [] {
      assert [e][1..] == [];
      assert es + [e] == [e];
      assert Run(c, Step(c, s, e), [], Step(c, s, e));
    } else {
      assert (es + [e])[1..] == es[1..] + [e];
      RunSnoc(c, Step(c, s, es[0]), es[1..], t, e);
    }
  }

  lemma {:induction false} RunCat(c: Config, s: State, es: seq<Event>, t: State, es': seq<Event>, u: State)
    requires Run(c, s, es, t) && Run(c, t, es', u)
    ensures Run(c, s, es + es', u)
    decreases |es|
  {
    hide Step, Enabled;
    if es == [] {
      assert es + es' == es';
    } else {
      assert (es + es')[1..] == es[1..] + es';
      RunCat(c, Step(c, s, es[0]), es[1..], t, es', u);
    }
  }
}
