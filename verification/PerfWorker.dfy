/**
 One ns_worker_ctx of the NVMe perf tool with the io_uring backend: task life cycle, I/O budget and queue depth
 accounting over a whole run of work_fn. Results of submissions, completions and timing are arbitrary.
 */
module PerfWorker {
  import opened Basics
  import opened Arith

  type Task = nat

  /** Where an allocated task is. `Stack` is a task some function is holding. */
  datatype Place = Stack | Flight | Queued | Freed

  function InFlight(p: Place): nat { if p.Flight? then 1 else 0 }

  function InQueue(p: Place): nat { if p.Queued? then 1 else 0 }

  function IsFreed(p: Place): nat { if p.Freed? then 1 else 0 }

  /** `current_queue_depth--` on an unsigned 64-bit counter. */
  function Dec64(x: nat): nat { if x == 0 then TWO64 - 1 else x - 1 }

  lemma PopFirst(s: seq<Task>)
    requires s != [] && Distinct(s)
    ensures Distinct(s[1..]) && s[0] !in s[1..]
    ensures forall t :: t in s <==> t == s[0] || t in s[1..]
  {
    assert s == [s[0]] + s[1..];
  }

  lemma PushLast(s: seq<Task>, t: Task)
    requires Distinct(s) && t !in s
    ensures Distinct(s + [t]) && forall u :: u in s + [t] <==> u in s || u == t
  {
  }

  class NsWorker {
    const queueDepth: nat
    const numberIos: nat
    const continueOnError: bool

    var depth: nat
    var submitted: nat
    var completed: nat
    var draining: bool
    var queued: seq<Task>
    var ioPending: nat
    var ioInflight: nat
    /** The place of every task allocated so far, and current_queue_depth when the statistics were last cleared. */
    var place: seq<Place>
    var base: nat

    /** Exactly the tasks of `held` are on the stack. */
    ghost predicate Holding(held: set<Task>)
      reads this
    {
      forall t: Task :: t < |place| ==> (place[t].Stack? <==> t in held)
    }

    /** The queue, together with the local list `swap`, holds every queued task exactly once. */
    ghost predicate Listed(swap: seq<Task>)
      reads this
    {
      && (forall t: Task :: t in queued || t in swap <==> t < |place| && place[t].Queued?)
      && Distinct(queued) && Distinct(swap) && (forall t: Task :: t in queued ==> t !in swap)
      && (!continueOnError ==> queued == [])
    }

    /** The depth is the number of tasks in flight, split between the ring, the kernel and `unprocessed`. */
    ghost predicate Counted(unprocessed: nat)
      reads this
    {
      && depth == Sum(place, InFlight)
      && depth == ioPending + ioInflight + unprocessed
      && submitted + base == completed + depth
      && |place| <= queueDepth < TWO64
      && (numberIos != 0 ==> submitted <= numberIos && (submitted == numberIos ==> draining))
    }

    ghost predicate Valid(held: set<Task>, swap: seq<Task>, unprocessed: nat)
      reads this
    {
      Holding(held) && Listed(swap) && Counted(unprocessed)
    }

    constructor (queueDepth: nat, numberIos: nat, continueOnError: bool)
      requires queueDepth < TWO64 && (numberIos != 0 ==> numberIos >= queueDepth > 0)
      ensures Valid({}, [], 0) && !draining && place == [] && submitted == 0 && base == 0
      ensures this.queueDepth == queueDepth && this.numberIos == numberIos && this.continueOnError == continueOnError
    {
      this.queueDepth, this.numberIos, this.continueOnError := queueDepth, numberIos, continueOnError;
      depth, submitted, completed, draining, queued, ioPending, ioInflight := 0, 0, 0, false, [], 0, 0;
      place, base := [], 0;
    }

    /** submit_single_io; `ok` is the answer of the backend. It is never entered while draining. */
    method SubmitSingle(task: Task, ok: bool, ghost swap: seq<Task>, ghost unprocessed: nat)
      requires !draining && Valid({task}, swap, unprocessed) && task < |place|
      modifies this
      ensures Valid({}, swap, unprocessed)
      ensures place == old(place)[task := if ok then Flight else if continueOnError then Queued else Freed]
      ensures base == old(base) && completed == old(completed) && ioInflight == old(ioInflight)
      ensures submitted == old(submitted) + (if ok then 1 else 0)
      ensures draining <==> numberIos != 0 && submitted == numberIos
    {
      var to := if ok then Flight else if continueOnError then Queued else Freed;
      SumUpdate(place, task, to, InFlight);
      place := place[task := to];
      if !ok {
        if continueOnError {
          PushLast(queued, task);
          queued := queued + [task];
        }
      } else {
        ioPending := ioPending + 1;
        depth := depth + 1;
        submitted := submitted + 1;
      }
      if numberIos != 0 && submitted >= numberIos {
        draining := true;
      }
    }

    /** task_complete of a task the kernel has finished. */
    method TaskComplete(task: Task, ok: bool, ghost unprocessed: nat)
      requires Valid({}, [], unprocessed + 1) && task < |place| && place[task].Flight?
      modifies this
      ensures Valid({}, [], unprocessed)
      ensures |place| == |old(place)| && place == old(place)[task := place[task]]
      ensures base == old(base) && completed == old(completed) + 1 && ioInflight == old(ioInflight)
      ensures old(draining) ==> draining && place[task].Freed? && depth == old(depth) - 1
      ensures old(draining) ==> submitted == old(submitted) && queued == old(queued)
    {
      SumAtLeast(place, task, InFlight);
      SumUpdate(place, task, Stack, InFlight);
      place := place[task := Stack];
      depth := Dec64(depth);
      completed := completed + 1;
      if draining {
        SumUpdate(place, task, Freed, InFlight);
        place := place[task := Freed];
      } else {
        SubmitSingle(task, ok, [], unprocessed);
      }
    }
  
    /** submit_io: the initial loop submits without looking at is_draining, relying on the option checks. */
    method SubmitIo()
      requires Valid({}, [], 0) && !draining && place == [] && submitted == 0 && base == 0
      requires numberIos != 0 ==> numberIos >= queueDepth
      modifies this
      ensures Valid({}, [], 0) && |place| == queueDepth && base == 0
    {
      for k := 0 to queueDepth
        invariant Valid({}, [], 0) && submitted <= k && |place| == k && base == 0
        invariant draining ==> numberIos != 0 && submitted == numberIos
      {
        SumAppend(place, Stack, InFlight);
        place := place + [Stack];
        var ok := *;
        SubmitSingle(k, ok, [], 0);
      }
    }

    /** The part of work_fn that retries the queued tasks through a local list. */
    method Resubmit()
      requires Valid({}, [], 0)
      modifies this
      ensures Valid({}, [], 0) && |place| == |old(place)| && base == old(base)
      ensures old(draining) ==> draining
    {
      if continueOnError && !draining {
        var swap := queued;
        queued := [];
        while swap != []
          invariant Valid({}, swap, 0) && |place| == |old(place)| && base == old(base)
          decreases |swap|
        {
          var task := swap[0];
          PopFirst(swap);
          swap := swap[1..];
          SumUpdate(place, task, Stack, InFlight);
          if draining {
            PushLast(queued, task);
            queued := queued + [task];
            continue;
          }
          place := place[task := Stack];
          var ok := *;
          SubmitSingle(task, ok, swap, 0);
        }
      }
    }

    /** io_uring_peek_batch_cqe: any of the operations in flight, at most `ioInflight`, at least one on `progress`. */
    method PeekBatch(progress: bool) returns (cqes: seq<Task>)
      requires ioInflight > 0 && ioInflight <= Sum(place, InFlight)
      ensures Distinct(cqes) && |cqes| <= ioInflight && (progress ==> cqes != [])
      ensures forall t :: t in cqes ==> t < |place| && place[t].Flight?
    {
      cqes := [];
      if progress {
        SumZero(place, InFlight);
        var t :| 0 <= t < |place| && place[t].Flight?;
        cqes := [t];
      }
      var tries: int := *;
      for k := 0 to if tries < 0 then 0 else tries
        invariant Distinct(cqes) && |cqes| <= ioInflight && (progress ==> cqes != [])
        invariant forall t :: t in cqes ==> t < |place| && place[t].Flight?
      {
        var t: int := *;
        if 0 <= t < |place| && place[t].Flight? && t !in cqes && |cqes| < ioInflight {
          PushLast(cqes, t);
          cqes := cqes + [t];
        }
      }
    }

    /** uring_check_io. With `progress` the kernel accepts the submission and returns something if it can. */
    method CheckIo(progress: bool) returns (count: int)
      requires Valid({}, [], 0)
      modifies this
      ensures Valid({}, [], 0) && |place| == |old(place)| && base == old(base)
      ensures old(draining) ==> draining && queued == old(queued) && submitted == old(submitted)
      ensures old(draining) ==> depth <= old(depth)
      ensures old(draining) && progress && old(depth) > 0 ==> depth < old(depth)
      ensures -1 <= count <= queueDepth
    {
      if ioPending > 0 {
        var failed := *;
        if failed && !progress {
          return -1;
        }
        ioInflight := ioInflight + ioPending;
        ioPending := 0;
      }
      if ioInflight == 0 {
        return 0;
      }
      InflightFits();
      var cqes := PeekBatch(progress);
      ioInflight := ioInflight - |cqes|;
      count := |cqes|;
      ProcessBatch(cqes);
    }

    /** The loop of uring_check_io: a completed task may be resubmitted while the rest of the batch waits. */
    method ProcessBatch(cqes: seq<Task>)
      requires Valid({}, [], |cqes|) && Distinct(cqes)
      requires forall t :: t in cqes ==> t < |place| && place[t].Flight?
      modifies this
      ensures Valid({}, [], 0) && |place| == |old(place)| && base == old(base)
      ensures completed == old(completed) + |cqes|
      ensures old(draining) ==> draining && queued == old(queued) && submitted == old(submitted)
      ensures old(draining) ==> depth == old(depth) - |cqes|
    {
      assert forall k :: 0 <= k < |cqes| ==> cqes[k] in cqes;
      for i := 0 to |cqes|
        invariant Valid({}, [], |cqes| - i) && |place| == |old(place)| && base == old(base)
        invariant completed == old(completed) + i
        invariant forall k :: i <= k < |cqes| ==> cqes[k] < |place| && place[cqes[k]].Flight?
        invariant old(draining) ==> draining && queued == old(queued) && submitted == old(submitted)
        invariant old(draining) ==> depth == old(depth) - i
      {
        var removed := *;
        if removed {
          draining := true;
        }
        var ok := *;
        TaskComplete(cqes[i], ok, |cqes| - i - 1);
      }
    }

    /** The number of completions asked for never exceeds the completion array of `queueDepth` entries. */
    lemma InflightFits()
      requires Valid({}, [], 0)
      ensures ioInflight <= depth <= queueDepth
    {
      SumBounded(place, InFlight, 1);
    }

    /** cleanup_ns_worker_ctx: task_complete is used to free queued tasks, although they were never in flight, so
        the depth wraps and the completions overcount by their number. */
    method Cleanup()
      requires Valid({}, [], 0) && draining && depth == 0
      modifies this
      ensures queued == [] && |place| == |old(place)| && submitted == old(submitted) && base == old(base)
      ensures forall t :: 0 <= t < |place| ==> place[t].Freed?
      ensures completed == old(completed) + |old(queued)|
      ensures depth == if old(queued) == [] then 0 else TWO64 - |old(queued)|
    {
      ghost var n := |queued|;
      QueueCount(place, queued);
      SumBounded(place, InQueue, 1);
      while queued != []
        invariant Holding({}) && Listed([]) && Sum(place, InFlight) == 0 && n <= queueDepth < TWO64
        invariant |place| == |old(place)| && submitted == old(submitted) && base == old(base) && |queued| <= n
        invariant completed == old(completed) + (n - |queued|)
        invariant depth == if |queued| == n then 0 else TWO64 - (n - |queued|)
        decreases |queued|
      {
        var task := queued[0];
        PopFirst(queued);
        queued := queued[1..];
        depth := Dec64(depth);
        completed := completed + 1;
        SumUpdate(place, task, Freed, InFlight);
        place := place[task := Freed];
      }
      SumZero(place, InFlight);
      forall t | 0 <= t < |place| ensures place[t].Freed? {
        assert InFlight(place[t]) == 0;
      }
    }

    /** The drain loop of work_fn. The kernel may leave any number of polls without an answer before it completes
        something that is in flight. */
    method Drain()
      requires Valid({}, [], 0)
      modifies this
      ensures Valid({}, [], 0) && draining && depth == 0 && |place| == |old(place)|
    {
      draining := true;
      var idle: int := *;
      while depth > 0
        invariant Valid({}, [], 0) && draining && |place| == |old(place)|
        decreases depth, idle
      {
        var before := depth;
        var count := CheckIo(idle <= 0);
        if depth == before {
          idle := idle - 1;
        } else {
          idle := *;
        }
      }
    }

    /** work_fn for one namespace: any number of polling rounds, then drain, then clean up. What the other namespaces
        of the worker do shows only in when the rounds end: they go on until every namespace is draining. */
    method WorkFn(rounds: nat, warmup: bool)
      requires Valid({}, [], 0) && !draining && place == [] && submitted == 0 && base == 0
      requires numberIos != 0 ==> numberIos >= queueDepth && !warmup
      modifies this
      ensures |place| == queueDepth && forall t :: 0 <= t < |place| ==> place[t].Freed?
      ensures numberIos != 0 ==> submitted <= numberIos
      ensures completed >= submitted + base
      ensures depth == if completed == submitted + base then 0 else TWO64 - (completed - submitted - base)
      ensures !continueOnError ==> depth == 0 && completed == submitted + base
    {
      SubmitIo();
      var warming := warmup;
      var k := 0;
      while k < rounds
        invariant Valid({}, [], 0) && |place| == queueDepth && (warming ==> numberIos == 0)
      {
        Resubmit();
        var progress := *;
        var count := CheckIo(progress);
        var othersDraining := *;
        if draining && othersDraining {
          break;
        }
        var expired := *;
        if expired {
          if !warming {
            break;
          }
          submitted, completed, base := 0, 0, depth;
          warming := false;
        }
        k := k + 1;
      }
      Drain();
      Cleanup();
    }
  }

  lemma {:induction false} SumAppend(s: seq<Place>, p: Place, f: Place -> nat)
    ensures Sum(s + [p], f) == Sum(s, f) + f(p)
  {
    if s == [] {
      assert [p][1..] == [];
    } else {
      assert (s + [p])[1..] == s[1..] + [p];
      SumAppend(s[1..], p, f);
    }
  }

  /** A list that names every queued task exactly once is as long as the number of queued tasks. */
  lemma {:induction false} QueueCount(place: seq<Place>, q: seq<Task>)
    requires Distinct(q) && forall t: Task :: t in q <==> t < |place| && place[t].Queued?
    ensures |q| == Sum(place, InQueue)
    decreases |q|
  {
    if q == [] {
      SumZero(place, InQueue);
    } else {
      PopFirst(q);
      SumUpdate(place, q[0], Freed, InQueue);
      QueueCount(place[q[0] := Freed], q[1..]);
    }
  }

  lemma {:induction false} PlacesAddUp(place: seq<Place>)
    requires forall t :: 0 <= t < |place| ==> !place[t].Stack?
    ensures |place| == Sum(place, InFlight) + Sum(place, InQueue) + Sum(place, IsFreed)
  {
    if place != [] {
      PlacesAddUp(place[1..]);
    }
  }

  /** Conservation: tasks allocated = queue depth + queued tasks (local list included) + freed tasks. */
  lemma TaskConservation(w: NsWorker, swap: seq<Task>, unprocessed: nat)
    requires w.Valid({}, swap, unprocessed)
    ensures |w.place| == w.depth + |w.queued| + |swap| + Sum(w.place, IsFreed)
  {
    PlacesAddUp(w.place);
    var q := w.queued + swap;
    forall i, j | 0 <= i < j < |q| ensures q[i] != q[j] {
      if i < |w.queued| <= j {
        assert q[i] in w.queued && q[j] in swap;
      }
    }
    QueueCount(w.place, q);
  }
}
