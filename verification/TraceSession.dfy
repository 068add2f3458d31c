/** What a whole recording session has put into the lcore file. */
module TraceSession {
  import opened Basics
  import opened TraceRecord

  /** The lengths the producer's log had at the successive polls. */
  ghost predicate Cuts(cuts: seq<nat>, log: seq<Entry>) {
    && (forall i :: 0 <= i < |cuts| ==> cuts[i] <= |log|)
    && (forall i, j :: 0 <= i < j < |cuts| ==> cuts[i] <= cuts[j])
  }

  function Last(cuts: seq<nat>): nat { if cuts == [] then 0 else cuts[|cuts| - 1] }

  function Before(cuts: seq<nat>): seq<nat>
    requires cuts != []
  {
    cuts[..|cuts| - 1]
  }

  /** The recorder after polling at `cuts`, whatever the producer did in between. */
  ghost function Session(n: nat, log: seq<Entry>, cuts: seq<nat>): (r: Recording)
    requires n > 0 && Cuts(cuts, log)
    ensures r.next == Last(cuts)
  {
    if cuts == [] then Recording(0, 0, 0, 0, [])
    else Poll(Session(n, log, Before(cuts)), n, log[..Last(cuts)])
  }

  /** No poll found more new entries than the ring holds. */
  ghost predicate KeptUp(n: nat, cuts: seq<nat>) {
    forall i :: 0 <= i < |cuts| ==> cuts[i] - (if i == 0 then 0 else cuts[i - 1]) <= n
  }

  /** Entries overwritten before they could be read. */
  function Missed(n: nat, cuts: seq<nat>): nat {
    if cuts == [] then 0
    else Missed(n, Before(cuts)) + Max(0, Last(cuts) - Last(Before(cuts)) - n)
  }

  ghost predicate Stamped(log: seq<Entry>) { forall i :: 0 <= i < |log| ==> log[i].tsc > 0 }

  /** The counters always describe the file: its length, its first and last timestamps. */
  ghost predicate RecordingOk(r: Recording, log: seq<Entry>) {
    && r.next <= |log| && r.numEntries == |r.file|
    && (r.firstTsc == 0 <==> r.next == 0)
    && (r.next == 0 ==> r.file == [])
    && (r.next > 0 ==> r.file != [] && r.firstTsc == r.file[0].tsc && r.lastTsc == log[r.next - 1].tsc
                       && r.file[|r.file| - 1] == log[r.next - 1])
  }

  lemma PollKeeps(r: Recording, n: nat, log: seq<Entry>, cut: nat)
    requires n > 0 && Stamped(log) && RecordingOk(r, log) && r.next <= cut <= |log|
    ensures RecordingOk(Poll(r, n, log[..cut]), log)
  {
  }

  lemma {:induction false} SessionOk(n: nat, log: seq<Entry>, cuts: seq<nat>)
    requires n > 0 && Cuts(cuts, log) && Stamped(log)
    ensures RecordingOk(Session(n, log, cuts), log)
    decreases |cuts|
  {
    if cuts != [] {
      SessionOk(n, log, Before(cuts));
      PollKeeps(Session(n, log, Before(cuts)), n, log, Last(cuts));
    }
  }

  /** Every entry of the log is in the file or was missed, and exactly the missed ones are absent. */
  lemma {:induction false} SessionCounts(n: nat, log: seq<Entry>, cuts: seq<nat>)
    requires n > 0 && Cuts(cuts, log) && Stamped(log)
    ensures |Session(n, log, cuts).file| + Missed(n, cuts) == Last(cuts)
    decreases |cuts|
  {
    if cuts != [] {
      SessionCounts(n, log, Before(cuts));
      SessionOk(n, log, Before(cuts));
    }
  }

  lemma {:induction false} MissedNothing(n: nat, cuts: seq<nat>)
    requires forall i, j :: 0 <= i < j < |cuts| ==> cuts[i] <= cuts[j]
    ensures Missed(n, cuts) == 0 <==> KeptUp(n, cuts)
    decreases |cuts|
  {
    if cuts != [] {
      var b := Before(cuts);
      MissedNothing(n, b);
      assert forall i :: 0 <= i < |b| ==> b[i] == cuts[i];
      var k := |cuts| - 1;
      assert KeptUp(n, cuts) ==> KeptUp(n, b) && cuts[k] - (if k == 0 then 0 else cuts[k - 1]) <= n;
    }
  }

  lemma {:induction false} KeptUpPrefix(n: nat, log: seq<Entry>, cuts: seq<nat>)
    requires n > 0 && Cuts(cuts, log) && Stamped(log) && Missed(n, cuts) == 0
    ensures Session(n, log, cuts).file == log[..Last(cuts)]
    decreases |cuts|
  {
    if cuts != [] {
      var b := Before(cuts);
      KeptUpPrefix(n, log, b);
      SessionOk(n, log, b);
      assert log[..Last(b)] + log[..Last(cuts)][Last(b)..] == log[..Last(cuts)];
    }
  }

  /** The file is the gap-free beginning of the producer's log if and only if no poll was overrun. */
  lemma GapFreeIffKeptUp(n: nat, log: seq<Entry>, cuts: seq<nat>)
    requires n > 0 && Cuts(cuts, log) && Stamped(log)
    ensures Session(n, log, cuts).file == log[..Last(cuts)] <==> KeptUp(n, cuts)
  {
    MissedNothing(n, cuts);
    SessionCounts(n, log, cuts);
    if KeptUp(n, cuts) {
      KeptUpPrefix(n, log, cuts);
    }
  }

  // ---- zero timestamps ----

  /** The recorder has no first timestamp yet: every poll that found something started at an entry stamped zero. */
  ghost predicate Unstamped(log: seq<Entry>, cuts: seq<nat>)
    requires Cuts(cuts, log)
    decreases |cuts|
  {
    cuts == [] ||
    (Unstamped(log, Before(cuts)) && (Last(Before(cuts)) < Last(cuts) ==> log[Last(Before(cuts))].tsc == 0))
  }

  /** Every poll fits the ring, and a poll that adds to earlier entries comes after a first timestamp or finds the
      whole ring new. */
  ghost predicate InStep(n: nat, log: seq<Entry>, cuts: seq<nat>)
    requires Cuts(cuts, log)
    decreases |cuts|
  {
    cuts == [] ||
    var a, b := Last(Before(cuts)), Last(cuts);
    && InStep(n, log, Before(cuts)) && b - a <= n
    && (0 < a < b && Unstamped(log, Before(cuts)) ==> b - a == n)
  }

  /** After every poll the file is the producer's log so far. */
  ghost predicate AlwaysExact(n: nat, log: seq<Entry>, cuts: seq<nat>)
    requires n > 0 && Cuts(cuts, log)
    decreases |cuts|
  {
    Session(n, log, cuts).file == log[..Last(cuts)] && (cuts == [] || AlwaysExact(n, log, Before(cuts)))
  }

  lemma {:induction false} FirstStamp(n: nat, log: seq<Entry>, cuts: seq<nat>)
    requires n > 0 && Cuts(cuts, log) && AlwaysExact(n, log, cuts)
    ensures Session(n, log, cuts).firstTsc == 0 <==> Unstamped(log, cuts)
    decreases |cuts|
  {
    if cuts != [] {
      var b := Before(cuts);
      FirstStamp(n, log, b);
      if Last(b) < Last(cuts) {
        ExactPoll(n, log, cuts);
      }
    }
  }

  /** An exact recording stays exact if and only if the next poll starts where it ended. */
  lemma ExactPoll(n: nat, log: seq<Entry>, cuts: seq<nat>)
    requires n > 0 && Cuts(cuts, log) && cuts != [] && Last(Before(cuts)) < Last(cuts)
    requires Session(n, log, Before(cuts)).file == log[..Last(Before(cuts))]
    ensures Session(n, log, cuts).file == log[..Last(cuts)]
            <==> From(Session(n, log, Before(cuts)), n, Last(cuts)) == Last(Before(cuts))
  {
    var r, a, b := Session(n, log, Before(cuts)), Last(Before(cuts)), Last(cuts);
    var k := From(r, n, b);
    assert Session(n, log, cuts).file == log[..a] + log[..b][k..];
    assert |log[..a] + log[..b][k..]| == a + b - k;
    if k == a {
      assert log[..a] + log[..b][a..] == log[..b];
    }
  }

  /** Whatever the timestamps, the file stays the gap-free beginning of the log if and only if the polls are in step;
      so an entry stamped zero at the front makes the next smaller poll repeat entries. */
  lemma {:induction false} ZeroTimestamp(n: nat, log: seq<Entry>, cuts: seq<nat>)
    requires n > 0 && Cuts(cuts, log)
    ensures AlwaysExact(n, log, cuts) <==> InStep(n, log, cuts)
    decreases |cuts|
  {
    if cuts != [] {
      var b := Before(cuts);
      ZeroTimestamp(n, log, b);
      if AlwaysExact(n, log, b) {
        FirstStamp(n, log, b);
        if Last(b) < Last(cuts) {
          ExactPoll(n, log, cuts);
        }
      }
    }
  }

  /** The smallest case: two polls of one entry each, the first entry stamped zero, and it is in the file twice. */
  lemma RepeatedEntry(first: Entry, second: Entry)
    requires first.tsc == 0
    ensures Session(4, [first, second], [1, 2]).file == [first, first, second]
  {
    var log := [first, second];
    assert Before([1, 2]) == [1] && Before([1]) == [];
    assert log[..1] == [first] && log[..2] == log;
    assert Session(4, log, []) == Recording(0, 0, 0, 0, []);
    assert Session(4, log, [1]) == Recording(1, 0, 0, 1, [first]);
  }
}
