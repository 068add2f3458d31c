/** Sparse copies: what the seek queue guarantees, and which bytes the position skips. */
module DdSparse {
  import opened Basics
  import opened Arith
  import opened DdModel
  import opened DdData
  import opened DdSteps
  import opened DdCount
  import opened DdProgress
  import opened DdTheorems

  /** In every reachable state at most one seek is in flight and it is the head of the queue's. */
  lemma OneSeekAtATime(c: Config, buf: seq<Byte>, interrupted: bool, rcs: seq<int>, es: seq<Event>, t: State, i: nat, j: nat)
    requires Execution(c, buf, interrupted, rcs, es, t)
    requires i < |t.ios| && t.ios[i].Seeking() && j < |t.ios| && t.ios[j].Seeking()
    ensures i == j && t.queue != [] && t.queue[0] == i && t.ios[i].stage.from == t.pos
  {
    hide Run, Started, DataInv, CountInv, ExitInv, AccountInv;
    ExecutionInv(c, buf, interrupted, rcs, es, t);
    assert i in t.queue;
  }

  // ---- skipped bytes ----

  lemma PopulateSkips(c: Config, s: State, i: nat, rc: int)
    requires c.Valid() && PosOk(c, s.pos) && i < |s.ios| && s.ios[i].stage.Idle?
    ensures forall p: nat :: s.pos <= p < PopulateBuffer(c, s, i, rc).pos ==>
              PopulateBuffer(c, s, i, rc).error != 0 || PopulateBuffer(c, s, i, rc).ios[i].Holds(p)
  {
    hide Config.Start, Config.WriteStart, Config.Aligned;
  }

  lemma WriteDoneSkips(c: Config, s: State, i: nat, res: int, rc: int, rcNext: int, p: nat)
    requires c.Valid() && !c.mode.Dense? && DataInv(c, s) && SeekInv(c, s)
    requires Enabled(s, Complete(i, res, rc, rcNext)) && s.ios[i].stage.Writing?
    requires s.pos <= p < CompletePoll(c, s, i, res, rc, rcNext).pos && p < |c.hole|
    ensures var t := CompletePoll(c, s, i, res, rc, rcNext);
            (c.hole[p] || t.error != 0 || Held(t.ios, p))
  {
    hide DataInv, SeekInv, Config.Start, Config.Valid, PopulateBuffer, PosOk;
    var t := CompletePoll(c, s, i, res, rc, rcNext);
    var s1 := Released(s, i, res);
    ReleasedKeeps(c, s, i, res, rc, rcNext);
    var data := Find(c.hole, s1.pos, false);
    var s2 := Extent(c, s1, i, data, Find(c.hole, data, true));
    DataPos(c, s1);
    assert t == PopulateBuffer(c, s2, i, rc);
    SkipHole(c, s1, data);
    DataPos(c, s1.(pos := data));
    PopulateSkips(c, s2, i, rc);
    assert t.ios[i].Holds(p) ==> Held(t.ios, p);
  }

  lemma SeekHoleDoneSkips(c: Config, s: State, i: nat, rc: int, rcNext: int, p: nat)
    requires c.Valid() && DataInv(c, s) && SeekInv(c, s) && i < |s.ios| && s.ios[i].stage.SeekingHole?
    requires s.pos <= p < SeekHoleDone(c, s, i, s.ios[i].stage.from, rc, rcNext).pos
    ensures var t := SeekHoleDone(c, s, i, s.ios[i].stage.from, rc, rcNext);
            t.error != 0 || Held(t.ios, p)
  {
    hide DataInv, Config.Start, PopulateBuffer, PosOk, Config.Valid;
    var t := SeekHoleDone(c, s, i, s.ios[i].stage.from, rc, rcNext);
    HoleReady(c, s, i);
    var s1 := HoleFound(c, s, i, Find(c.hole, s.ios[i].stage.from, true));
    var s2 := PopulateBuffer(c, s1, i, rc);
    PopulateSkips(c, s1, i, rc);
    PopulateShape(c, s1, i, rc);
    DequeueKeepsQueue(c, s, s2, i);
    assert s2.error != 0 || s2.ios[i].Holds(p);
    assert t.error != 0 || t.ios[i].Holds(p);
  }

  /** Every byte an event moves the position past is claimed by a slot or lies in a hole. */
  lemma SkippedBytesAreHoles(c: Config, s: State, e: Event, p: nat)
    requires c.Valid() && !c.mode.Dense? && Inv(c, s) && Enabled(s, e)
    requires s.pos <= p < Step(c, s, e).pos
    ensures p < |c.hole| && (c.hole[p] || Step(c, s, e).error != 0 || Held(Step(c, s, e).ios, p))
  {
    hide DataInv, CountInv, ExitInv, AccountInv, PosOk, TargetSeek, SeekHoleDone, RoundUp, Config.Valid;
    StepKeeps(c, s, e);
    DataPos(c, Step(c, s, e));
    match e
    case Complete(i, res, rc, rcNext) =>
      if s.ios[i].stage.Writing? {
        WriteDoneSkips(c, s, i, res, rc, rcNext, p);
      } else if s.ios[i].stage.SeekingHole? {
        SeekHoleDoneSkips(c, s, i, rc, rcNext, p);
      }
    case _ =>
  }
}
