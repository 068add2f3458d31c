/**
 trace_files_aggregate: the lcore files are laid out behind the trace file header and an offset table.
 The readers are those of spdk/trace.h, applied to the bytes that were written.
 */
module TraceAggregate {
  import opened Basics
  import opened Arith
  import opened TraceRecord
  import opened TraceSession

  // ---- little-endian words ----

  function Encode(x: nat, width: nat): (bs: seq<Byte>)
    ensures |bs| == width
  {
    if width == 0 then [] else [x % 256] + Encode(x / 256, width - 1)
  }

  function Decode(bs: seq<Byte>): nat {
    if bs == [] then 0 else bs[0] + 256 * Decode(bs[1..])
  }

  function Pow256(k: nat): nat { if k == 0 then 1 else 256 * Pow256(k - 1) }

  lemma {:induction false} DecodeEncode(x: nat, width: nat)
    requires x < Pow256(width)
    ensures Decode(Encode(x, width)) == x
  {
    if width > 0 {
      DecodeEncode(x / 256, width - 1);
      assert Encode(x, width)[1..] == Encode(x / 256, width - 1);
    }
  }

  function U64(x: nat): (bs: seq<Byte>)
    ensures |bs| == 8
  {
    Encode(x, 8)
  }

  lemma DecodeU64(x: nat)
    requires x < TWO64
    ensures Decode(U64(x)) == x
  {
    assert Pow256(8) == TWO64 by {
      assert Pow256(4) == 256 * 256 * 256 * 256;
    }
    DecodeEncode(x, 8);
  }

  // ---- layout ----

  const MAX_LCORE: nat := 1024
  /** sizeof(struct spdk_trace_history), sizeof(struct spdk_trace_entry) and sizeof(struct spdk_trace_owner). */
  const HISTORY: nat := 8216
  const ENTRY: nat := 32
  const OWNER: nat := 9
  /** The metadata between file_size and the offset table, and sizeof(struct spdk_trace_file). */
  const META: nat := 212112
  const TABLE: nat := 8 + META
  const FILE: nat := TABLE + 8 * MAX_LCORE + 8

  /** One lcore: whether it exists, its out_history header, its entry count and its temporary file. */
  datatype Port = Port(valid: bool, history: seq<Byte>, numEntries: nat, file: seq<Byte>) {
    /** The header as written: num_entries replaced by the number of recorded entries. */
    function Header(): seq<Byte>
      requires |history| == HISTORY
    {
      history[..8] + U64(numEntries) + history[16..]
    }

    ghost predicate Ok() { |history| == HISTORY && numEntries < TWO64 && |file| == numEntries * ENTRY }
  }

  /** spdk_get_trace_history_size. */
  function HistorySize(numEntries: nat): nat { HISTORY + numEntries * ENTRY }

  function SectionSize(p: Port): nat { if p.valid then HistorySize(p.numEntries) else 0 }

  /** Position of the section that follows the first `i` ports. */
  function Offset(ports: seq<Port>, i: nat): nat
    requires i <= |ports|
  {
    if i == 0 then FILE else Offset(ports, i - 1) + SectionSize(ports[i - 1])
  }

  function Section(p: Port): seq<Byte>
    requires |p.history| == HISTORY
  {
    if p.valid then p.Header() + p.file else []
  }

  ghost predicate PortsOk(ports: seq<Port>) { forall i :: 0 <= i < |ports| ==> ports[i].Ok() }

  function Sections(ports: seq<Port>, i: nat): seq<Byte>
    requires i <= |ports| && forall k :: 0 <= k < |ports| ==> |ports[k].history| == HISTORY
  {
    if i == 0 then [] else Sections(ports, i - 1) + Section(ports[i - 1])
  }

  function TableEntry(ports: seq<Port>, i: nat): nat
    requires i < |ports|
  {
    if ports[i].valid then Offset(ports, i) else 0
  }

  function Table(ports: seq<Port>, i: nat): (bs: seq<Byte>)
    requires i <= |ports|
    ensures |bs| == 8 * i
  {
    if i == 0 then [] else Table(ports, i - 1) + U64(TableEntry(ports, i - 1))
  }

  /** The write position when port `i`'s header is emitted is the offset that the table promises. */
  lemma {:induction false} SectionsEndAtOffset(ports: seq<Port>, i: nat)
    requires PortsOk(ports) && i <= |ports|
    ensures FILE + |Sections(ports, i)| == Offset(ports, i)
  {
    if i > 0 {
      SectionsEndAtOffset(ports, i - 1);
    }
  }

  lemma {:induction false} SectionsContain(ports: seq<Port>, i: nat, m: nat)
    requires PortsOk(ports) && i < m <= |ports|
    ensures Offset(ports, i) + SectionSize(ports[i]) <= Offset(ports, m)
    ensures Sections(ports, i) + Section(ports[i]) <= Sections(ports, m)
    decreases m
  {
    hide Section, HistorySize;
    if i + 1 < m {
      SectionsContain(ports, i, m - 1);
      assert Sections(ports, m) == Sections(ports, m - 1) + Section(ports[m - 1]);
    } else {
      assert Sections(ports, m) == Sections(ports, i) + Section(ports[i]);
    }
  }

  lemma {:induction false} TableAt(ports: seq<Port>, i: nat, m: nat)
    requires i < m <= |ports|
    ensures Table(ports, m)[8 * i..8 * i + 8] == U64(TableEntry(ports, i))
    decreases m
  {
    if i + 1 < m {
      TableAt(ports, i, m - 1);
      assert Table(ports, m)[8 * i..8 * i + 8] == Table(ports, m - 1)[8 * i..8 * i + 8];
    }
  }

  // ---- the aggregation ----

  /** The trace file in shared memory: the metadata copied verbatim and the owner records. num_owners and
      owner_description_size are 16-bit words near the end of the metadata, before four reserved bytes. */
  datatype TraceFile = TraceFile(meta: seq<Byte>, owners: seq<Byte>) {
    function NumOwners(): nat
      requires |meta| == META
    {
      Decode(meta[META - 8..META - 6])
    }

    function RecordSize(): nat
      requires |meta| == META
    {
      OWNER + Decode(meta[META - 6..META - 4])
    }

    function OwnerSize(): nat
      requires |meta| == META
    {
      NumOwners() * RecordSize()
    }

    ghost predicate Ok() { |meta| == META && |owners| == OwnerSize() }
  }

  const COPY_SIZE: nat := 32 * 1024

  /** The inner loop: the temporary file is copied through a buffer of TRACE_FILE_COPY_SIZE bytes. */
  method CopyFile(file: seq<Byte>) returns (copy: seq<Byte>, lenSum: nat)
    ensures copy == file && lenSum == |file|
  {
    copy, lenSum := [], 0;
    while lenSum < |file|
      invariant lenSum <= |file| && copy == file[..lenSum]
    {
      var len := if |file| - lenSum < COPY_SIZE then |file| - lenSum else COPY_SIZE;
      copy := copy + file[lenSum..lenSum + len];
      lenSum := lenSum + len;
    }
  }

  /** The bytes a successful aggregation leaves in the output file. */
  function Aggregated(t: TraceFile, ports: seq<Port>): seq<Byte>
    requires |t.meta| == META && forall k :: 0 <= k < |ports| ==> |ports[k].history| == HISTORY
  {
    var n := |ports|;
    U64(Offset(ports, n) + t.OwnerSize()) + t.meta + Table(ports, n) + U64(Offset(ports, n))
      + Sections(ports, n) + t.owners
  }

  method Aggregate(t: TraceFile, ports: seq<Port>) returns (out: seq<Byte>)
    requires t.Ok() && PortsOk(ports)
    ensures out == Aggregated(t, ports)
  {
    hide U64, Decode, Section, Port.Header;
    var table, current := LayOut(ports);
    var ownerOffset := current;
    current := current + t.OwnerSize();
    out := U64(current) + t.meta + table + U64(ownerOffset);
    ghost var head := out;
    for i := 0 to |ports|
      invariant out == head + Sections(ports, i)
    {
      var section := [];
      if ports[i].valid {
        section := WriteSection(ports[i]);
      } else {
        EmptySection(ports[i]);
      }
      out := out + section;
    }
    out := out + t.owners;
  }

  /** The first loop: every valid lcore gets the running offset, every other one zero. */
  method LayOut(ports: seq<Port>) returns (table: seq<Byte>, current: nat)
    ensures table == Table(ports, |ports|) && current == Offset(ports, |ports|)
  {
    current, table := FILE, [];
    for i := 0 to |ports|
      invariant current == Offset(ports, i) && table == Table(ports, i)
    {
      if ports[i].valid {
        table := table + U64(current);
        current := current + HistorySize(ports[i].numEntries);
      } else {
        table := table + U64(0);
      }
    }
  }

  /** Header and copied entries of one lcore. */
  method WriteSection(p: Port) returns (out: seq<Byte>)
    requires p.valid && |p.history| == HISTORY
    ensures out == Section(p)
  {
    var copy, lenSum := CopyFile(p.file);
    out := p.Header() + copy;
  }

  lemma EmptySection(p: Port)
    requires !p.valid && |p.history| == HISTORY
    ensures Section(p) == []
  {
  }

  // ---- reading it back ----

  datatype History = History(header: seq<Byte>, entries: seq<Byte>)

  function Word(file: seq<Byte>, at: nat): nat
    requires at + 8 <= |file|
  {
    Decode(file[at..at + 8])
  }

  /** spdk_get_per_lcore_history and the entries behind it; None when there is none or the file is cut short. */
  function PerLcoreHistory(file: seq<Byte>, lcore: nat): Option<History> {
    if lcore >= MAX_LCORE || |file| < FILE then None
    else
      var off := Word(file, TABLE + 8 * lcore);
      if off == 0 || off + HISTORY > |file| then None
      else
        var n := Word(file, off + 8);
        if off + HISTORY + n * ENTRY > |file| then None
        else Some(History(file[off..off + HISTORY], file[off + HISTORY..off + HISTORY + n * ENTRY]))
  }

  function FileSize(file: seq<Byte>): nat
    requires |file| >= 8
  {
    Word(file, 0)
  }

  /** spdk_get_trace_owner: the record of one owner, found with the counts in the file's own metadata. */
  function Owner(file: seq<Byte>, id: nat): Option<seq<Byte>> {
    if |file| < FILE || id >= Decode(file[TABLE - 8..TABLE - 6]) then None
    else
      var size := OWNER + Decode(file[TABLE - 6..TABLE - 4]);
      var at := Word(file, FILE - 8) + id * size;
      if at + size > |file| then None else Some(file[at..at + size])
  }

  ghost predicate Fits(t: TraceFile, ports: seq<Port>) {
    t.Ok() && PortsOk(ports) && |ports| == MAX_LCORE && Offset(ports, MAX_LCORE) + t.OwnerSize() < TWO64
  }

  lemma Concat6(a: seq<Byte>, b: seq<Byte>, c: seq<Byte>, d: seq<Byte>, e: seq<Byte>, f: seq<Byte>)
    ensures var s := a + b + c + d + e + f;
      && s[..|a|] == a
      && s[|a|..|a| + |b|] == b
      && s[|a| + |b|..|a| + |b| + |c|] == c
      && s[|a| + |b| + |c|..|a| + |b| + |c| + |d|] == d
      && s[|a| + |b| + |c| + |d|..|a| + |b| + |c| + |d| + |e|] == e
      && s[|a| + |b| + |c| + |d| + |e|..] == f
      && |s| == |a| + |b| + |c| + |d| + |e| + |f|
  {
  }

  /** Where the parts of the aggregated file lie; the size written first is the final length. */
  lemma Parts(t: TraceFile, ports: seq<Port>)
    requires Fits(t, ports)
    ensures var out := Aggregated(t, ports); var n := MAX_LCORE;
      && |out| == Offset(ports, n) + t.OwnerSize() && FILE <= Offset(ports, n)
      && FileSize(out) == |out|
      && out[8..TABLE] == t.meta
      && out[TABLE..FILE - 8] == Table(ports, n)
      && Word(out, FILE - 8) == Offset(ports, n)
      && out[FILE..Offset(ports, n)] == Sections(ports, n)
      && out[Offset(ports, n)..] == t.owners
  {
    hide Table, Sections, U64, Decode, Offset;
    var n := MAX_LCORE;
    SectionsEndAtOffset(ports, n);
    var size, off := U64(Offset(ports, n) + t.OwnerSize()), U64(Offset(ports, n));
    Concat6(size, t.meta, Table(ports, n), off, Sections(ports, n), t.owners);
    DecodeU64(Offset(ports, n) + t.OwnerSize());
    DecodeU64(Offset(ports, n));
  }

  lemma SubSlice(s: seq<Byte>, a: nat, b: nat, part: seq<Byte>, i: nat, j: nat)
    requires a <= b <= |s| && s[a..b] == part && i <= j <= |part|
    ensures s[a + i..a + j] == part[i..j]
  {
    forall k | 0 <= k < j - i ensures s[a + i..a + j][k] == part[i..j][k] {
      assert s[a..b][i + k] == s[a + i + k];
    }
  }

  /** Reading lcore `i` from the aggregated file gives back its header, with the recorded entry count, and exactly
      its recorded entries; an lcore that does not exist reads as absent. */
  lemma ReadBack(t: TraceFile, ports: seq<Port>, i: nat)
    requires Fits(t, ports) && i < MAX_LCORE
    ensures PerLcoreHistory(Aggregated(t, ports), i)
            == if ports[i].valid then Some(History(ports[i].Header(), ports[i].file)) else None
  {
    hide Table, Sections, Decode, Encode, Offset, Aggregated, Section;
    var out, n, p := Aggregated(t, ports), MAX_LCORE, ports[i];
    Parts(t, ports);
    TableAt(ports, i, n);
    SubSlice(out, TABLE, FILE - 8, Table(ports, n), 8 * i, 8 * i + 8);
    assert Word(out, TABLE + 8 * i) == Decode(U64(TableEntry(ports, i)));
    if p.valid {
      var off := Offset(ports, i);
      SectionsEndAtOffset(ports, i);
      SectionsContain(ports, i, n);
      DecodeU64(off);
      ReadSection(t, ports, i);
      DecodeU64(p.numEntries);
    } else {
      DecodeU64(0);
    }
  }

  lemma ReadSection(t: TraceFile, ports: seq<Port>, i: nat)
    requires Fits(t, ports) && i < MAX_LCORE && ports[i].valid
    ensures var out, off, p := Aggregated(t, ports), Offset(ports, i), ports[i];
      && off + HISTORY + p.numEntries * ENTRY <= |out|
      && out[off..off + HISTORY] == p.Header()
      && out[off + 8..off + 16] == U64(p.numEntries)
      && out[off + HISTORY..off + HISTORY + p.numEntries * ENTRY] == p.file
  {
    hide Table, Sections, Section, Port.Header, U64, Offset, Aggregated;
    var out, n, p := Aggregated(t, ports), MAX_LCORE, ports[i];
    var off := Offset(ports, i);
    Parts(t, ports);
    SectionsEndAtOffset(ports, i);
    SectionsContain(ports, i, n);
    var all, before := Sections(ports, n), Sections(ports, i);
    var sec := Section(p);
    assert all[|before|..|before| + |sec|] == sec;
    SubSlice(out, FILE, Offset(ports, n), all, |before|, |before| + |sec|);
    assert out[off..off + |sec|] == sec;
    SectionParts(p);
    SubSlice(out, off, off + |sec|, sec, 0, HISTORY);
    SubSlice(out, off, off + |sec|, sec, 8, 16);
    SubSlice(out, off, off + |sec|, sec, HISTORY, |sec|);
  }

  lemma SectionParts(p: Port)
    requires p.Ok() && p.valid
    ensures var sec := Section(p);
      && |sec| == HISTORY + p.numEntries * ENTRY && sec[..HISTORY] == p.Header()
      && sec[8..16] == U64(p.numEntries) && sec[HISTORY..] == p.file
  {
    hide U64;
    assert |p.Header()| == HISTORY;
    assert p.Header()[8..16] == U64(p.numEntries);
  }

  /** No two sections overlap, and every one lies between the header and the owner records. */
  lemma SectionsApart(ports: seq<Port>, i: nat, j: nat)
    requires PortsOk(ports) && i < j < |ports|
    ensures FILE <= Offset(ports, i)
    ensures Offset(ports, i) + SectionSize(ports[i]) <= Offset(ports, j)
    ensures Offset(ports, j) + SectionSize(ports[j]) <= Offset(ports, |ports|)
  {
    SectionsEndAtOffset(ports, i);
    SectionsContain(ports, i, j);
    SectionsContain(ports, j, |ports|);
  }

  lemma RecordBound(id: nat, count: nat, size: nat)
    requires id < count
    ensures id * size + size <= count * size
  {
    MulMonotone(id + 1, count, size);
    assert (id + 1) * size == id * size + size;
  }

  /** Owner records survive the move to the new owner_offset, and there are no others. */
  lemma ReadOwner(t: TraceFile, ports: seq<Port>, id: nat)
    requires Fits(t, ports)
    ensures var size := t.RecordSize();
      && (id < t.NumOwners() ==> id * size + size <= |t.owners|)
      && Owner(Aggregated(t, ports), id)
         == if id < t.NumOwners() then Some(t.owners[id * size..id * size + size]) else None
  {
    hide Table, Sections, Decode, Encode, Offset, Aggregated, Word;
    var out, n, size := Aggregated(t, ports), MAX_LCORE, t.RecordSize();
    Parts(t, ports);
    SubSlice(out, 8, TABLE, t.meta, META - 8, META - 6);
    SubSlice(out, 8, TABLE, t.meta, META - 6, META - 4);
    if id >= t.NumOwners() {
      return;
    }
    RecordBound(id, t.NumOwners(), size);
    var at := id * size;
    SubSlice(out, Offset(ports, n), |out|, t.owners, at, at + size);
  }

  // ---- from the ring to the aggregated file ----

  ghost predicate EntryOk(e: Entry) { e.tsc < TWO64 && |e.payload| == ENTRY - 8 }

  function EntryBytes(e: Entry): seq<Byte> { U64(e.tsc) + e.payload }

  function FileBytes(es: seq<Entry>): seq<Byte> {
    if es == [] then [] else EntryBytes(es[0]) + FileBytes(es[1..])
  }

  function ReadEntries(bs: seq<Byte>): seq<Entry> {
    if |bs| < ENTRY then [] else [Entry(Decode(bs[..8]), bs[8..ENTRY])] + ReadEntries(bs[ENTRY..])
  }

  lemma {:induction false} EntriesRoundTrip(es: seq<Entry>)
    requires forall i :: 0 <= i < |es| ==> EntryOk(es[i])
    ensures |FileBytes(es)| == |es| * ENTRY && ReadEntries(FileBytes(es)) == es
  {
    hide U64, Decode;
    if es != [] {
      EntriesRoundTrip(es[1..]);
      DecodeU64(es[0].tsc);
      var bs := FileBytes(es);
      assert EntryOk(es[0]) && |EntryBytes(es[0])| == ENTRY;
      assert bs[..8] == U64(es[0].tsc) && bs[8..ENTRY] == es[0].payload && bs[ENTRY..] == FileBytes(es[1..]);
      assert es == [es[0]] + es[1..];
    }
  }

  /** A port whose file and count come from a recording session. */
  ghost predicate FromSession(p: Port, n: nat, log: seq<Entry>, cuts: seq<nat>)
    requires n > 0 && Cuts(cuts, log)
  {
    var r := Session(n, log, cuts);
    p.valid && p.numEntries == r.numEntries && p.file == FileBytes(r.file)
  }

  /** End to end: whatever the producers and the poller did, reading an lcore back from the aggregated file yields
      the entries its session recorded, and the producer's whole log up to the last poll if it kept up. */
  lemma RecordedTraceReadsBack(t: TraceFile, ports: seq<Port>, i: nat, n: nat, log: seq<Entry>, cuts: seq<nat>)
    requires Fits(t, ports) && i < MAX_LCORE && n > 0 && Cuts(cuts, log) && Stamped(log)
    requires FromSession(ports[i], n, log, cuts)
    requires forall k :: 0 <= k < |Session(n, log, cuts).file| ==> EntryOk(Session(n, log, cuts).file[k])
    ensures var h := PerLcoreHistory(Aggregated(t, ports), i);
      && h.Some? && ReadEntries(h.value.entries) == Session(n, log, cuts).file
      && (KeptUp(n, cuts) ==> ReadEntries(h.value.entries) == log[..Last(cuts)])
  {
    hide PerLcoreHistory, Aggregated, Session;
    ReadBack(t, ports, i);
    EntriesRoundTrip(Session(n, log, cuts).file);
    GapFreeIffKeptUp(n, log, cuts);
  }
}
