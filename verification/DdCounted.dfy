/**
 Sparse copies with --count, where the region ends before the input does. The position then can jump over the end of
 the region, and the slots go on copying behind it. This module says exactly for which jobs that can happen.
 */
module DdCounted {
  import opened Basics
  import opened Arith
  import opened DdModel
  import opened DdSteps
  import opened DdCount
  import opened DdTheorems
  import opened DdDeadlock
  import opened DdHalt

  ghost predicate CountedOk(c: Config) { !c.mode.Dense? && c.End() <= |c.hole| == |c.input| < TWO64 }

  /** The region is followed by a hole and then by more data. */
  ghost predicate DataBehindHole(c: Config) { c.End() < Find(c.hole, c.End(), false) < |c.hole| }

  /** There is data behind a hole that reaches over the end of the region; for block devices with two slots a hole
      that begins at the end is enough. */
  ghost predicate Overshoots(c: Config)
    requires CountedOk(c)
  {
    && c.copySize > 0 && DataBehindHole(c)
    && (c.hole[c.End() - 1] || (c.mode.SparseBdev? && c.depth >= 2))
  }

  /** A slot moves a chunk that lies behind the region. */
  ghost predicate Overshot(c: Config, s: State) {
    exists i :: 0 <= i < |s.ios| && s.ios[i].Active() && s.ios[i].offset > c.End()
  }

  // ---- jobs that stay inside ----

  ghost predicate Inside(c: Config, s: State) {
    && c.Start() <= s.pos <= c.End() && |s.ios| == c.depth && SeekInv(c, s)
    && (forall i :: 0 <= i < |s.ios| && s.ios[i].Active() ==> s.ios[i].offset + s.ios[i].length <= c.End())
    && (forall i :: 0 <= i < |s.ios| && s.ios[i].Seeking() ==>
          c.copySize > 0 && (s.pos == c.End() ==> !DataBehindHole(c)))
  }

  lemma PopulateInside(c: Config, s: State, i: nat, rc: int)
    requires c.Start() <= s.pos <= c.End() && i < |s.ios| && !s.ios[i].Active()
    ensures var t := PopulateBuffer(c, s, i, rc);
      && s.pos <= t.pos <= c.End()
      && (t.ios[i].Active() ==> t.ios[i].offset + t.ios[i].length <= c.End())
  {
    hide Config.Start, Config.Aligned;
  }

  /** Seeking from inside the region ends inside it, or in no data at all. */
  lemma SeekInside(c: Config, pos: nat)
    requires CountedOk(c) && !Overshoots(c) && c.copySize > 0 && c.Start() <= pos <= c.End()
    requires pos == c.End() ==> !DataBehindHole(c)
    ensures Find(c.hole, pos, false) <= c.End() || Find(c.hole, pos, false) >= |c.hole|
    ensures Find(c.hole, pos, false) == c.End() < |c.hole| ==> !DataBehindHole(c)
  {
    hide Config.Start;
    var data := Find(c.hole, pos, false);
    if pos < c.End() < data {
      assert c.hole[c.End() - 1];
      assert Find(c.hole, c.End(), false) == data;
    }
  }

  lemma TargetSeekInside(c: Config, s: State, i: nat, rc: int)
    requires CountedOk(c) && !Overshoots(c) && Inside(c, s) && i < |s.ios| && s.ios[i].stage.Idle?
    ensures Inside(c, TargetSeek(c, s, i, rc))
  {
    hide Config.Start, Config.WriteStart, PopulateBuffer, SeekInv, Overshoots, DataBehindHole, Find;
    var t := TargetSeek(c, s, i, rc);
    SeekKeepsQueue(c, s, i, rc);
    SeekTouchesOne(c, s, i, rc);
    var data := Find(c.hole, s.pos, false);
    if c.mode.SparseFile? && s.pos < c.End() && !s.Halted() && data < |c.hole| {
      SeekInside(c, s.pos);
      var s1 := Extent(c, s, i, data, Find(c.hole, data, true));
      PopulateInside(c, s1, i, rc);
      PopulateShape(c, s1, i, rc);
      NotSeeking(c, s);
    }
  }

  lemma NotSeeking(c: Config, s: State)
    requires SeekInv(c, s) && c.mode.SparseFile?
    ensures NoSeek(s)
  {
    assert s.queue == [];
  }

  lemma SeekDataDoneInside(c: Config, s: State, i: nat, rc: int)
    requires CountedOk(c) && !Overshoots(c) && Inside(c, s) && i < |s.ios| && s.ios[i].stage.SeekingData?
    requires SeekInv(c, SeekDataDone(c, s, i, s.ios[i].stage.from, rc))
    ensures Inside(c, SeekDataDone(c, s, i, s.ios[i].stage.from, rc))
  {
    hide Config.Start, Config.WriteStart, Overshoots, DataBehindHole, Find;
    assert SeekOk(c, s.pos, s.ios[i].stage);
    SeekInside(c, s.pos);
  }

  lemma SeekHoleDoneInside(c: Config, s: State, i: nat, rc: int, rcNext: int)
    requires CountedOk(c) && !Overshoots(c) && Inside(c, s) && i < |s.ios| && s.ios[i].stage.SeekingHole?
    requires SeekInv(c, SeekHoleDone(c, s, i, s.ios[i].stage.from, rc, rcNext))
    ensures Inside(c, SeekHoleDone(c, s, i, s.ios[i].stage.from, rc, rcNext))
  {
    hide Config.Start, Config.WriteStart, PopulateBuffer, DataBehindHole, Find, SeekOk, StartNextSeek, Overshoots, CountedOk;
    assert i in s.queue;
    if !s.Halted() {
      var s1 := HoleFound(c, s, i, Find(c.hole, s.ios[i].stage.from, true));
      PopulateInside(c, s1, i, rc);
      PopulateShape(c, s1, i, rc);
      var s2 := PopulateBuffer(c, s1, i, rc);
      DequeueKeepsQueue(c, s, s2, i);
      if s2.queue != [] {
        assert s.queue[0] < c.depth && s.queue[1] < c.depth && s.queue[0] != s.queue[1];
      }
      NextSeekInside(c, s2, rcNext);
    } else {
      SlotInside(c, s, StopReporting(Dequeue(s, i)), i);
    }
  }

  lemma NextSeekInside(c: Config, s: State, rc: int)
    requires CountedOk(c) && !Overshoots(c) && Inside(c, s) && NoSeek(s) && SeekInv(c, StartNextSeek(c, s, rc))
    requires s.queue != [] ==> c.mode.SparseBdev? && c.copySize > 0 && c.depth >= 2
    ensures Inside(c, StartNextSeek(c, s, rc))
  {
    hide Config.Start, DataBehindHole, SeekInv;
  }

  /** One slot moves on with the chunk or the seek it has, or drops it. */
  lemma SlotInside(c: Config, s: State, t: State, i: nat)
    requires Inside(c, s) && SeekInv(c, t) && t.pos == s.pos && i < |s.ios| && |t.ios| == |s.ios|
    requires t.ios == s.ios[i := t.ios[i]] && (t.ios[i].Seeking() ==> s.ios[i].Seeking())
    requires t.ios[i].Active() ==>
               s.ios[i].Active() && t.ios[i].offset == s.ios[i].offset && t.ios[i].length == s.ios[i].length
    ensures Inside(c, t)
  {
    hide SeekInv, DataBehindHole, Config.Start;
  }

  lemma ChunkDoneInside(c: Config, s: State, i: nat, res: int, rc: int, rcNext: int)
    requires Inside(c, s) && i < |s.ios| && (s.ios[i].stage.Populating? || s.ios[i].stage.Reading?)
    ensures Inside(c, CompletePoll(c, s, i, res, rc, rcNext))
  {
    hide Inside;
    InsideQueue(c, s);
    ChunkDoneKeepsQueue(c, s, i, res, rc, rcNext);
    SlotInside(c, s, CompletePoll(c, s, i, res, rc, rcNext), i);
  }

  lemma InsideQueue(c: Config, s: State)
    requires Inside(c, s)
    ensures SeekInv(c, s)
  {
  }

  lemma StepInside(c: Config, s: State, e: Event)
    requires CountedOk(c) && !Overshoots(c) && Inside(c, s) && Enabled(s, e)
    ensures Inside(c, Step(c, s, e))
  {
    hide Inside, SeekInv, Overshoots, CountedOk, TargetRead, TargetWrite, TargetSeek, SeekDataDone, SeekHoleDone, RoundUp;
    InsideQueue(c, s);
    StepKeepsQueue(c, s, e);
    match e
    case Device(i) => SlotInside(c, s, Step(c, s, e), i);
    case Complete(i, res, rc, rcNext) =>
      match s.ios[i].stage {
        case SeekingData(_) => SeekDataDoneInside(c, s, i, rc);
        case SeekingHole(_) => SeekHoleDoneInside(c, s, i, rc, rcNext);
        case Writing =>
          QueueKept(c, s, Released(s, i, res), i);
          SlotInside(c, s, Released(s, i, res), i);
          TargetSeekInside(c, Released(s, i, res), i, rc);
        case _ => ChunkDoneInside(c, s, i, res, rc, rcNext);
      }
    case _ => SameSlots(c, s, Step(c, s, e));
  }

  lemma SameSlots(c: Config, s: State, t: State)
    requires Inside(c, s) && SeekInv(c, t) && t.ios == s.ios && t.pos == s.pos
    ensures Inside(c, t)
  {
  }

  lemma {:induction false} RunInside(c: Config, s: State, es: seq<Event>, t: State)
    requires CountedOk(c) && !Overshoots(c) && Inside(c, s) && Run(c, s, es, t)
    ensures Inside(c, t)
    decreases |es|
  {
    hide Inside, CountedOk, Overshoots, Step;
    if es != [] {
      StepInside(c, s, es[0]);
      RunInside(c, Step(c, s, es[0]), es[1..], t);
    }
  }

  lemma {:induction false} StartInside(c: Config, s: State, i: nat, rcs: seq<int>)
    requires CountedOk(c) && !Overshoots(c) && Inside(c, s) && i + |rcs| == |s.ios|
    requires forall j :: i <= j < |s.ios| ==> s.ios[j].stage.Idle?
    ensures Inside(c, StartSlots(c, s, i, rcs))
    decreases |rcs|
  {
    hide Inside, CountedOk, Overshoots, TargetSeek;
    if rcs != [] {
      TargetSeekInside(c, s, i, rcs[0]);
      SeekTouchesOne(c, s, i, rcs[0]);
      StartInside(c, TargetSeek(c, s, i, rcs[0]), i + 1, rcs[1..]);
    }
  }

  // ---- jobs that overshoot ----

  /** Slot `i` reads and writes its chunk, the others stand still. */
  lemma {:induction false} Drive(c: Config, s: State, i: nat) returns (es: seq<Event>, t: State)
    requires Calm(s) && i < |s.ios| && s.ios[i].Active() && !s.ios[i].applied
    ensures Run(c, s, es, t) && Calm(t) && t.pos == s.pos && t.queue == s.queue && |t.ios| == |s.ios|
    ensures t.ios[i].stage.Writing? && t.ios[i].applied
    ensures forall k :: 0 <= k < |s.ios| && k != i ==> t.ios[k] == s.ios[k]
    decreases s.ios[i].stage.Populating?, s.ios[i].stage.Reading?
  {
    hide Run, RoundUp, Store, Fetch, Config.At;
    RunNil(c, s);
    RunSnoc(c, s, [], s, Device(i));
    var s1 := Step(c, s, Device(i));
    if s.ios[i].stage.Writing? {
      es, t := [] + [Device(i)], s1;
    } else {
      var e := Complete(i, 0, 0, 0);
      RunSnoc(c, s, [] + [Device(i)], s1, e);
      var s2 := Step(c, s1, e);
      var rest, u := Drive(c, s2, i);
      RunCat(c, s, [] + [Device(i)] + [e], s2, rest, u);
      es, t := [] + [Device(i)] + [e] + rest, u;
    }
  }

  /** A seek from inside the region finds data inside it, or the data behind the hole. */
  lemma SeekAhead(c: Config, pos: nat)
    requires CountedOk(c) && Overshoots(c) && pos <= c.End()
    ensures var data := Find(c.hole, pos, false);
      && data < |c.hole| && pos <= data && Find(c.hole, data, true) > data && (data < c.End() || data > c.End())
      && (c.hole[c.End() - 1] && data < c.End() ==> Find(c.hole, data, true) < c.End())
  {
    hide Config.Start;
    var data := Find(c.hole, pos, false);
    assert !c.hole[Find(c.hole, c.End(), false)];
  }

  /** Slot `i` of `t` has taken the chunk at `pos` and nothing else has changed. */
  ghost predicate Claims(s: State, t: State, i: nat, pos: nat) {
    && Calm(t) && i < |t.ios| == |s.ios| && t.ios[i].Active() && !t.ios[i].applied && t.ios[i].offset == pos
    && (forall k :: 0 <= k < |s.ios| && k != i ==> t.ios[k] == s.ios[k])
  }

  /** Behind the region the remaining length wraps around, so the chunk is not cut. */
  lemma PopulateAhead(c: Config, s: State, i: nat)
    requires CountedOk(c) && Calm(s) && c.Start() <= s.pos < |c.hole| && s.pos != c.End()
    requires i < |s.ios| && s.ios[i].length > 0
    ensures var t := PopulateBuffer(c, s, i, 0);
      && Claims(s, t, i, s.pos) && t.queue == s.queue
      && (s.pos < c.End() ==> t.pos == s.pos + Min(s.ios[i].length, c.End() - s.pos))
  {
    hide Config.Start, Config.Aligned;
  }

  lemma FileClaims(c: Config, s: State, i: nat)
    requires CountedOk(c) && Overshoots(c) && c.mode.SparseFile? && Calm(s) && c.Start() <= s.pos < c.End() && i < |s.ios|
    ensures var t := TargetSeek(c, s, i, 0);
      && Claims(s, t, i, Find(c.hole, s.pos, false))
      && (s.pos < t.pos < c.End() || t.ios[i].offset > c.End())
  {
    hide Config.Start, Find, PopulateBuffer, DataBehindHole;
    SeekAhead(c, s.pos);
    var data := Find(c.hole, s.pos, false);
    PopulateAhead(c, Extent(c, s, i, data, Find(c.hole, data, true)), i);
  }

  /** A slot of a sparse file copy that keeps going reaches the data behind the region. */
  lemma {:induction false} FileOvershoots(c: Config, s: State, i: nat) returns (es: seq<Event>, t: State)
    requires CountedOk(c) && Overshoots(c) && c.mode.SparseFile? && Calm(s) && c.Start() <= s.pos < c.End()
    requires i < |s.ios| && s.ios[i].Active() && !s.ios[i].applied
    ensures Run(c, s, es, t) && Overshot(c, t)
    decreases c.End() - s.pos
  {
    hide Run, CountedOk, Overshoots, TargetSeek, Config.Start, Config.End;
    var es1, s1 := Drive(c, s, i);
    var e := Complete(i, 0, 0, 0);
    RunSnoc(c, s, es1, s1, e);
    var s2 := Step(c, s1, e);
    FileClaims(c, Released(s1, i, 0), i);
    if s2.ios[i].offset > c.End() {
      es, t := es1 + [e], s2;
    } else {
      var rest, u := FileOvershoots(c, s2, i);
      RunCat(c, s, es1 + [e], s2, rest, u);
      es, t := es1 + [e] + rest, u;
    }
  }

  /** A slot behind the region stays there for the rest of start-up. */
  lemma {:induction false} StartStaysBehind(c: Config, s: State, i: nat, rcs: seq<int>, j: nat)
    requires i + |rcs| == |s.ios| && j < i && s.ios[j].Active() && s.ios[j].offset > c.End()
    ensures Overshot(c, StartSlots(c, s, i, rcs))
    decreases |rcs|
  {
    hide TargetSeek, Config.End;
    if rcs != [] {
      SeekTouchesOne(c, s, i, rcs[0]);
      StartStaysBehind(c, TargetSeek(c, s, i, rcs[0]), i + 1, rcs[1..], j);
    }
  }

  lemma {:induction false} StartFile(c: Config, s: State, i: nat, rcs: seq<int>)
    requires CountedOk(c) && Overshoots(c) && c.mode.SparseFile? && Calm(s) && c.Start() <= s.pos < c.End()
    requires i + |rcs| == |s.ios| && (forall k :: 0 <= k < |rcs| ==> rcs[k] == 0)
    requires i > 0 ==> s.ios[0].Active() && !s.ios[0].applied
    ensures var t := StartSlots(c, s, i, rcs);
      && (i > 0 || rcs != [] ==>
            || Overshot(c, t)
            || (Calm(t) && c.Start() <= t.pos < c.End() && |t.ios| == |s.ios| && t.ios[0].Active() && !t.ios[0].applied))
    decreases |rcs|
  {
    hide TargetSeek, CountedOk, Overshoots, Config.End, Config.Start;
    if rcs != [] {
      FileClaims(c, s, i);
      var s1 := TargetSeek(c, s, i, rcs[0]);
      if s1.ios[i].offset > c.End() {
        StartStaysBehind(c, s1, i + 1, rcs[1..], i);
      } else {
        StartFile(c, s1, i + 1, rcs[1..]);
      }
    }
  }

  // ---- block devices ----

  /** The head of the queue is about to seek; with several slots another one waits unless the region is used up. */
  ghost predicate Turn(c: Config, s: State) {
    && Calm(s) && SeekInv(c, s) && |s.ios| == c.depth && s.queue != [] && c.Start() <= s.pos <= c.End()
    && s.ios[s.queue[0]].stage == SeekingData(s.pos) && !s.ios[s.queue[0]].applied
    && (s.pos < c.End() && c.depth >= 2 ==> |s.queue| >= 2)
  }

  /** The seek for data and the seek for the hole behind it, up to the last completion. */
  lemma TwoSeeks(c: Config, s: State) returns (es: seq<Event>, t: State)
    requires CountedOk(c) && Overshoots(c) && c.mode.SparseBdev? && Turn(c, s)
    ensures Run(c, s, es, t) && Calm(t) && SeekInv(c, t) && |t.ios| == |s.ios| && t.queue == s.queue
    ensures t.pos == Find(c.hole, s.pos, false) && t.ios[s.queue[0]].stage == SeekingHole(t.pos) && t.ios[s.queue[0]].applied
  {
    hide Run, Config.Start, Find, DataBehindHole, CountedOk, Overshoots, SeekInv;
    QueueInRange(c, s);
    var i := s.queue[0];
    SeekAhead(c, s.pos);
    RunNil(c, s);
    var e1, e2 := Device(i), Complete(i, 0, 0, 0);
    RunSnoc(c, s, [], s, e1);
    StepKeepsQueue(c, s, e1);
    var s1 := Step(c, s, e1);
    RunSnoc(c, s, [] + [e1], s1, e2);
    StepKeepsQueue(c, s1, e2);
    var s2 := Step(c, s1, e2);
    RunSnoc(c, s, [] + [e1] + [e2], s2, e1);
    StepKeepsQueue(c, s2, e1);
    es, t := [] + [e1] + [e2] + [e1], Step(c, s2, e1);
  }

  /** The completion of the hole seek: slot `i` gets a chunk and the next slot in the queue starts to seek. */
  lemma BdevClaims(c: Config, s: State, i: nat)
    requires CountedOk(c) && Overshoots(c) && c.mode.SparseBdev? && Calm(s) && SeekInv(c, s) && |s.ios| == c.depth
    requires s.queue != [] && s.queue[0] == i && s.ios[i].stage == SeekingHole(s.pos) && s.ios[i].applied
    requires c.Start() <= s.pos < |c.hole| && s.pos != c.End() && Find(c.hole, s.pos, true) > s.pos
    ensures var t := Step(c, s, Complete(i, 0, 0, 0));
      && Calm(t) && |t.ios| == |s.ios| && t.queue == s.queue[1..]
      && t.ios[i].Active() && !t.ios[i].applied && t.ios[i].offset == s.pos
      && (s.pos < c.End() ==> t.pos == s.pos + Min(Min(c.unit, Find(c.hole, s.pos, true) - s.pos), c.End() - s.pos))
      && (s.pos < c.End() && t.queue != [] ==> t.ios[t.queue[0]].stage == SeekingData(t.pos) && !t.ios[t.queue[0]].applied)
  {
    hide Config.Start, PopulateBuffer, Find;
    assert i in s.queue;
    var s1 := HoleFound(c, s, i, Find(c.hole, s.pos, true));
    PopulateAhead(c, s1, i);
    var s2 := PopulateBuffer(c, s1, i, 0);
    if s2.queue != [] {
      assert s2.queue[0] == s.queue[1] != i;
    }
  }

  /** The chunk of slot `i` is written and the slot joins the queue again. */
  lemma Rejoin(c: Config, s: State, i: nat) returns (es: seq<Event>, t: State)
    requires CountedOk(c) && c.mode.SparseBdev? && Calm(s) && SeekInv(c, s) && c.Start() <= s.pos < c.End()
    requires i < |s.ios| && s.ios[i].Active() && !s.ios[i].applied
    ensures Run(c, s, es, t) && Calm(t) && SeekInv(c, t) && |t.ios| == |s.ios| && t.pos == s.pos && t.queue == s.queue + [i]
    ensures s.queue == [] ==> t.ios[i].stage == SeekingData(t.pos) && !t.ios[i].applied
    ensures s.queue != [] && s.queue[0] != i ==> t.ios[s.queue[0]] == s.ios[s.queue[0]]
  {
    hide Run, Config.Start, CountedOk;
    var e := Complete(i, 0, 0, 0);
    var es1, s1 := Drive(c, s, i);
    RunKeepsQueue(c, s, es1, s1);
    RunSnoc(c, s, es1, s1, e);
    StepKeepsQueue(c, s1, e);
    es, t := es1 + [e], Step(c, s1, e);
  }

  lemma {:induction false} RunKeepsQueue(c: Config, s: State, es: seq<Event>, t: State)
    requires SeekInv(c, s) && Run(c, s, es, t)
    ensures SeekInv(c, t)
    decreases |es|
  {
    hide SeekInv, Step;
    if es != [] {
      StepKeepsQueue(c, s, es[0]);
      RunKeepsQueue(c, Step(c, s, es[0]), es[1..], t);
    }
  }

  lemma {:induction false} BdevOvershoots(c: Config, s: State) returns (es: seq<Event>, t: State)
    requires CountedOk(c) && Overshoots(c) && c.mode.SparseBdev? && Turn(c, s)
    ensures Run(c, s, es, t) && Overshot(c, t)
    decreases c.End() - s.pos
  {
    hide Run, Config.Start, Find, DataBehindHole, Step, CountedOk;
    var i, e := s.queue[0], Complete(s.queue[0], 0, 0, 0);
    SeekAhead(c, s.pos);
    var es1, s1 := TwoSeeks(c, s);
    RunSnoc(c, s, es1, s1, e);
    StepKeepsQueue(c, s1, e);
    BdevClaims(c, s1, i);
    var s2 := Step(c, s1, e);
    if s1.pos > c.End() {
      es, t := es1 + [e], s2;
    } else if s2.pos == c.End() {
      var rest, u := BdevOvershoots(c, s2);
      RunCat(c, s, es1 + [e], s2, rest, u);
      es, t := es1 + [e] + rest, u;
    } else {
      var es2, s3 := Rejoin(c, s2, i);
      RunCat(c, s, es1 + [e], s2, es2, s3);
      var rest, u := BdevOvershoots(c, s3);
      RunCat(c, s, es1 + [e] + es2, s3, rest, u);
      es, t := es1 + [e] + es2 + rest, u;
    }
  }

  // ---- the condition ----

  /** Some run, whatever fails in it, moves a chunk behind the region. */
  ghost predicate CanOvershoot(c: Config) {
    exists buf: seq<Byte>, interrupted: bool, rcs: seq<int>, es: seq<Event>, t: State ::
      |rcs| == c.depth && Run(c, Started(c, buf, interrupted, rcs), es, t) && Overshot(c, t)
  }

  lemma OvershootingRun(c: Config, buf: seq<Byte>) returns (rcs: seq<int>, es: seq<Event>, t: State)
    requires CountedOk(c) && Overshoots(c) && c.depth > 0
    ensures |rcs| == c.depth && Run(c, Started(c, buf, false, rcs), es, t) && Overshot(c, t)
  {
    hide Run, Config.Start, DataBehindHole, StartSlots;
    rcs := seq(c.depth, _ => 0);
    var s0 := Fresh(c, buf, false);
    var s := Started(c, buf, false, rcs);
    RunNil(c, s);
    if c.mode.SparseFile? {
      StartFile(c, s0, 0, rcs);
      if Overshot(c, s) {
        es, t := [], s;
      } else {
        es, t := FileOvershoots(c, s, 0);
      }
    } else {
      FirstSeek(c, buf, rcs);
      StartQueued(c, s0, 0, rcs);
      es, t := BdevOvershoots(c, s);
    }
  }

  lemma {:induction false} StartQueued(c: Config, s: State, i: nat, rcs: seq<int>)
    requires SeekInv(c, s) && i + |rcs| == |s.ios| && forall j :: i <= j < |s.ios| ==> s.ios[j].stage.Idle?
    ensures SeekInv(c, StartSlots(c, s, i, rcs))
    decreases |rcs|
  {
    hide TargetSeek, SeekInv;
    if rcs != [] {
      SeekKeepsQueue(c, s, i, rcs[0]);
      SeekTouchesOne(c, s, i, rcs[0]);
      StartQueued(c, TargetSeek(c, s, i, rcs[0]), i + 1, rcs[1..]);
    }
  }

  /** With --count and --sparse a run can copy data behind the region if and only if there is data behind a hole that
      reaches over the end of the region, or, for block devices with at least two slots, begins there. */
  lemma CountOvershoot(c: Config)
    requires CountedOk(c) && c.depth > 0
    ensures CanOvershoot(c) <==> Overshoots(c)
  {
    hide Run, Started, CountedOk, Overshot;
    if Overshoots(c) {
      var rcs, es, t := OvershootingRun(c, []);
    } else {
      forall buf: seq<Byte>, interrupted: bool, rcs: seq<int>, es: seq<Event>, t: State
        | |rcs| == c.depth && Run(c, Started(c, buf, interrupted, rcs), es, t)
        ensures !Overshot(c, t)
      {
        StaysInside(c, buf, interrupted, rcs, es, t);
      }
    }
  }

  lemma StaysInside(c: Config, buf: seq<Byte>, interrupted: bool, rcs: seq<int>, es: seq<Event>, t: State)
    requires CountedOk(c) && !Overshoots(c) && |rcs| == c.depth && Run(c, Started(c, buf, interrupted, rcs), es, t)
    ensures !Overshot(c, t)
  {
    hide Run, StartSlots, Config.Start, DataBehindHole, Overshoots;
    StartInside(c, Fresh(c, buf, interrupted), 0, rcs);
    RunInside(c, Started(c, buf, interrupted, rcs), es, t);
  }

  /** A job with --count 2 on the bytes data, hole, hole, data: a slot gets to move the last byte although it was not asked for. */
  lemma CountExample()
    ensures CanOvershoot(Config([7, 0, 0, 7], [false, true, true, false], [0, 0, 0, 0], 4, false, 1, 1, 0, 0, 2, 1, SparseFile))
  {
    hide CanOvershoot;
    var hole := [false, true, true, false];
    var c := Config([7, 0, 0, 7], hole, [0, 0, 0, 0], 4, false, 1, 1, 0, 0, 2, 1, SparseFile);
    assert Find(hole, 2, false) == 3;
    assert c.Start() == 0 && c.End() == 2;
    CountOvershoot(c);
  }
}
