/**
 The trace recorder: a producer writes a power-of-two ring in shared memory, a poller drains it into the lcore
 file. The ring is compared with the unbounded log of everything the producer ever recorded.
 */
module TraceRecord {
  import opened Basics
  import opened Arith
  import opened Bits

  datatype Entry = Entry(tsc: nat, payload: seq<Byte>)

  // ---- what a poll must do ----

  /** The recorder's fields and the entries in its lcore file. */
  datatype Recording = Recording(next: nat, firstTsc: nat, lastTsc: nat, numEntries: nat, file: seq<Entry>)

  /** Where the entries of the next poll start: all the ring still holds when nothing was recorded before (as
      signalled by a zero first timestamp), else what is new, or the oldest entry still in the ring. */
  function From(r: Recording, n: nat, shm: nat): (k: nat)
    ensures k <= shm || r.next > shm
  {
    Max(if r.firstTsc == 0 then 0 else r.next, shm - n)
  }

  ghost function Poll(r: Recording, n: nat, log: seq<Entry>): Recording
    requires n > 0 && r.next <= |log|
  {
    if |log| == r.next then r
    else
      var k := From(r, n, |log|);
      Recording(|log|, if r.firstTsc == 0 then log[k].tsc else r.firstTsc, log[|log| - 1].tsc,
                r.numEntries + (|log| - k), r.file + log[k..])
  }

  // ---- arithmetic of the ring ----

  lemma WrapMod(x: nat, d: nat, n: nat)
    requires n > 0 && d <= n
    ensures (x + d) % n == if x % n + d < n then x % n + d else x % n + d - n
  {
    var q, r := x / n, x % n;
    assert x == q * n + r;
    if r + d < n {
      DivModUnique(x + d, n, q, r + d);
    } else if r + d < 2 * n {
      assert x + d == (q + 1) * n + (r + d - n);
      DivModUnique(x + d, n, q + 1, r + d - n);
    }
  }

  /** The ring cells read by a partial poll are exactly the new entries. */
  lemma SpanMod(a: nat, b: nat, n: nat)
    requires n > 0 && a < b && b - a < n
    ensures b % n > a % n ==> b % n - a % n == b - a
    ensures b % n <= a % n ==> n - a % n + b % n == b - a
    ensures b % n != a % n
  {
    WrapMod(a, b - a, n);
  }

  /** The producer's side: spdk_trace_history of one lcore. */
  class History {
    const k: nat
    const n: nat
    const entries: array<Entry>
    var nextEntry: nat
    ghost var log: seq<Entry>

    /** The ring holds the last `n` entries of the log. */
    ghost predicate Valid()
      reads this, entries
    {
      && n == Pow2(k) && entries.Length == n && nextEntry == |log|
      && (forall i :: Max(0, nextEntry - n) <= i < nextEntry ==> entries[i % n] == log[i])
    }

    constructor (k: nat, zero: Entry)
      ensures Valid() && log == [] && this.k == k && fresh(entries)
    {
      this.k := k;
      n := Pow2(k);
      entries := new Entry[Pow2(k)](_ => zero);
      nextEntry, log := 0, [];
    }

    /** get_trace_entry: the cell of an unbounded index. */
    function Cell(i: nat): (c: nat)
      requires n == Pow2(k)
      ensures c == i % n && c < n
    {
      AndMask(i, k);
      And(i, n - 1)
    }

    /** _spdk_trace_record: one record fills one or more consecutive cells, then publishes them. */
    method Record(es: seq<Entry>)
      requires Valid()
      modifies this, entries
      ensures Valid() && log == old(log) + es
    {
      var j := 0;
      while j < |es|
        invariant j <= |es| && n == Pow2(k) && entries.Length == n
        invariant nextEntry == |old(log)| && log == old(log)
        invariant forall i :: Max(0, nextEntry + j - n) <= i < nextEntry + j ==>
                    entries[i % n] == (old(log) + es)[i]
      {
        var c := Cell(nextEntry + j);
        ghost var before := entries[..];
        entries[c] := es[j];
        forall i | Max(0, nextEntry + j + 1 - n) <= i < nextEntry + j
          ensures entries[i % n] == (old(log) + es)[i]
        {
          assert before[i % n] == (old(log) + es)[i];
          SpanMod(i, nextEntry + j, n);
        }
        j := j + 1;
      }
      nextEntry := nextEntry + j;
      log := log + es;
    }
  }

  /** The poller's side: lcore_trace_record_ctx and its file. `ok1` and `ok2` say whether the writes of one poll
      succeed. */
  class Recorder {
    const history: History
    var recNextEntry: nat
    var firstEntryTsc: nat
    var lastEntryTsc: nat
    var numEntries: nat
    var file: seq<Entry>

    constructor (h: History)
      ensures history == h && Snapshot() == Recording(0, 0, 0, 0, [])
    {
      history := h;
      recNextEntry, firstEntryTsc, lastEntryTsc, numEntries, file := 0, 0, 0, 0, [];
    }

    ghost function Snapshot(): Recording
      reads this
    {
      Recording(recNextEntry, firstEntryTsc, lastEntryTsc, numEntries, file)
    }

    /** The whole stretch was appended, or a failed write cut it short. */
    ghost predicate Appended(before: seq<Entry>, stretch: seq<Entry>, rc: int)
      reads this`file
    {
      if rc == 0 then file == before + stretch else before <= file < before + stretch
    }

    method PaddingBackward(start: nat, end: nat, ok: bool) returns (rc: int)
      requires end <= history.entries.Length
      modifies this`file
      ensures rc == 0 <==> start < end && ok
      ensures if start < end then Appended(old(file), history.entries[start..end], rc) else file == old(file)
    {
      if end <= start || !ok {
        return -1;
      }
      file := file + history.entries[start..end];
      return 0;
    }

    method PaddingAcross(start: nat, end: nat, ok1: bool, ok2: bool) returns (rc: int)
      requires end <= history.entries.Length && start <= history.entries.Length
      modifies this`file
      ensures rc == 0 <==> end <= start && ok1 && (end == 0 || ok2)
      ensures end > start ==> file == old(file)
      ensures end <= start < history.entries.Length ==>
                Appended(old(file), history.entries[start..] + history.entries[..end], rc)
    {
      if end > start || !ok1 {
        return -1;
      }
      file := file + history.entries[start..];
      if end == 0 {
        assert history.entries[start..] + history.entries[..end] == history.entries[start..];
        return 0;
      }
      if !ok2 {
        return -1;
      }
      file := file + history.entries[..end];
      assert file == old(file) + (history.entries[start..] + history.entries[..end]);
      return 0;
    }

    /** The last `n` entries, oldest first, are the ring read from `end` round to `end`. */
    lemma WholeRing(end: nat)
      requires history.Valid() && history.nextEntry >= history.n && end == history.nextEntry % history.n
      ensures history.entries[end..] + history.entries[..end] == history.log[history.nextEntry - history.n..]
    {
      var n, next := history.n, history.nextEntry;
      var ring := history.entries[end..] + history.entries[..end];
      var tail := history.log[next - n..];
      WrapMod(next - n, n, n);
      forall i | 0 <= i < n ensures ring[i] == tail[i] {
        WrapMod(next - n, i, n);
        assert history.entries[(next - n + i) % n] == history.log[next - n + i];
      }
    }

    /** A run of fewer than `n` new entries, possibly over the edge of the ring. */
    lemma PartRing(rec: nat)
      requires history.Valid() && rec < history.nextEntry && history.nextEntry - rec < history.n
      ensures var a, b := rec % history.n, history.nextEntry % history.n;
        && (a < b ==> history.entries[a..b] == history.log[rec..])
        && (b <= a ==> history.entries[a..] + history.entries[..b] == history.log[rec..])
    {
      var n, next := history.n, history.nextEntry;
      var a, b := rec % n, next % n;
      SpanMod(rec, next, n);
      var ring := if a < b then history.entries[a..b] else history.entries[a..] + history.entries[..b];
      forall i | 0 <= i < next - rec ensures ring[i] == history.log[rec..][i] {
        WrapMod(rec, i, n);
        assert history.entries[(rec + i) % n] == history.log[rec + i];
      }
    }

    /** The branch of lcore_trace_record for a recorder without a first timestamp. */
    method AppendFirst(ok1: bool, ok2: bool) returns (rc: int)
      requires history.Valid() && history.nextEntry > 0
      modifies this`firstEntryTsc, this`numEntries, this`file
      ensures ok1 && ok2 ==> rc == 0
      ensures var k := Max(0, history.nextEntry - history.n);
        && firstEntryTsc == history.log[k].tsc && numEntries == old(numEntries) + (history.nextEntry - k)
        && Appended(old(file), history.log[k..], rc)
    {
      var n, shm := history.n, history.nextEntry;
      var cirNext := history.Cell(shm);
      if shm < n {
        SmallMod(shm, n);
        PartRing0();
        assert history.entries[..shm][0] == history.log[0];
        firstEntryTsc := history.entries[0].tsc;
        numEntries := numEntries + cirNext;
        rc := PaddingBackward(0, cirNext, ok1);
      } else {
        WholeRing(cirNext);
        OldestCell(cirNext);
        firstEntryTsc := history.entries[cirNext].tsc;
        numEntries := numEntries + n;
        rc := PaddingAcross(cirNext, cirNext, ok1, ok2);
      }
    }

    /** The branches of lcore_trace_record for later polls: overrun, whole ring, and part of the ring. */
    method AppendMore(ok1: bool, ok2: bool) returns (rc: int)
      requires history.Valid() && recNextEntry < history.nextEntry
      modifies this`numEntries, this`file
      ensures ok1 && ok2 ==> rc == 0
      ensures var k := Max(recNextEntry, history.nextEntry - history.n);
        numEntries == old(numEntries) + (history.nextEntry - k) && Appended(old(file), history.log[k..], rc)
    {
      hide Pow2, And, Appended;
      var n, shm := history.n, history.nextEntry;
      var cirNext := history.Cell(shm);
      if shm - recNextEntry > n {
        WholeRing(cirNext);
        numEntries := numEntries + n;
        rc := PaddingAcross(cirNext, cirNext, ok1, ok2);
      } else if shm - recNextEntry == n {
        WholeRing(cirNext);
        numEntries := numEntries + n;
        rc := PaddingAcross(cirNext, cirNext, ok1, ok2);
      } else {
        var recCir := history.Cell(recNextEntry);
        SpanMod(recNextEntry, shm, n);
        PartRing(recNextEntry);
        if cirNext > recCir {
          numEntries := numEntries + (cirNext - recCir);
          rc := PaddingBackward(recCir, cirNext, ok1);
        } else {
          numEntries := numEntries + (n - recCir + cirNext);
          rc := PaddingAcross(recCir, cirNext, ok1, ok2);
        }
      }
    }

    /** The branches of lcore_trace_record that append. */
    method Append(ok1: bool, ok2: bool) returns (rc: int)
      requires history.Valid() && recNextEntry < history.nextEntry
      modifies this`firstEntryTsc, this`numEntries, this`file
      ensures ok1 && ok2 ==> rc == 0
      ensures var k := From(old(Snapshot()), history.n, history.nextEntry);
        && firstEntryTsc == (if old(firstEntryTsc) == 0 then history.log[k].tsc else old(firstEntryTsc))
        && numEntries == old(numEntries) + (history.nextEntry - k) && Appended(old(file), history.log[k..], rc)
    {
      hide Pow2, And, Appended;
      if firstEntryTsc == 0 {
        rc := AppendFirst(ok1, ok2);
      } else {
        rc := AppendMore(ok1, ok2);
      }
    }

    /** lcore_trace_record: fails exactly on a rollback or a failed write; otherwise it performs the poll. After a
        failed write the entry count already includes the entries, of which only a first part is in the file. */
    method Record(ok1: bool, ok2: bool) returns (rc: int)
      requires history.Valid()
      modifies this
      ensures old(recNextEntry) > |history.log| ==> rc != 0 && Snapshot() == old(Snapshot())
      ensures old(recNextEntry) <= |history.log| && ok1 && ok2 ==> rc == 0
      ensures rc == 0 ==> old(recNextEntry) <= |history.log| &&
                          Snapshot() == Poll(old(Snapshot()), history.n, history.log)
      ensures rc != 0 && old(recNextEntry) <= |history.log| ==>
                var p := Poll(old(Snapshot()), history.n, history.log);
                && Snapshot() == p.(next := old(recNextEntry), lastTsc := old(lastEntryTsc), file := file)
                && old(file) <= file < p.file
    {
      hide Pow2, And;
      var n, shm := history.n, history.nextEntry;
      if shm == recNextEntry {
        return 0;
      } else if shm < recNextEntry {
        return -1;
      }
      var cirNext := history.Cell(shm);
      rc := Append(ok1, ok2);
      if rc != 0 {
        return rc;
      }
      LastCell();
      lastEntryTsc := history.entries[if cirNext == 0 then n - 1 else cirNext - 1].tsc;
      recNextEntry := shm;
    }

    lemma PartRing0()
      requires history.Valid() && 0 < history.nextEntry < history.n
      ensures history.entries[..history.nextEntry] == history.log
    {
      PartRing(0);
      SmallMod(history.nextEntry, history.n);
      SmallMod(0, history.n);
    }

    lemma OldestCell(end: nat)
      requires history.Valid() && history.nextEntry >= history.n && end == history.nextEntry % history.n
      ensures history.entries[end] == history.log[history.nextEntry - history.n]
    {
      var i := history.nextEntry - history.n;
      WrapMod(i, history.n, history.n);
      assert history.entries[i % history.n] == history.log[i];
    }

    /** lcore_trace_last_entry_idx points at the newest entry. */
    lemma LastCell()
      requires history.Valid() && history.nextEntry > 0
      ensures var c := history.nextEntry % history.n;
        history.entries[if c == 0 then history.n - 1 else c - 1] == history.log[history.nextEntry - 1]
    {
      var i := history.nextEntry - 1;
      WrapMod(i, 1, history.n);
      assert history.entries[i % history.n] == history.log[i];
    }
  }
}
