/** The chunked-body loop of the RPC proxy's do_POST, against the encoding of section 4.1 of RFC 7230. */
module Chunked {

  import opened Basics

  const CR: Byte := 13
  const LF: Byte := 10
  const CRLF: seq<Byte> := [CR, LF]
  const SEMICOLON: Byte := 59

  // ---- readline, read, strip and int(_, 16) on bytes ----

  /** Length of the first line of `s`, its LF included; the whole of `s` when there is none. */
  function LineLength(s: seq<Byte>): (n: nat)
    ensures n <= |s| && (s != [] ==> n > 0)
  {
    if s == [] then 0 else if s[0] == LF then 1 else 1 + LineLength(s[1..])
  }

  predicate IsSpace(b: Byte) { b == 32 || 9 <= b <= 13 }

  function StripFront(s: seq<Byte>): seq<Byte> {
    if s != [] && IsSpace(s[0]) then StripFront(s[1..]) else s
  }

  function StripBack(s: seq<Byte>): (r: seq<Byte>)
    ensures r <= s
  {
    if s != [] && IsSpace(s[|s| - 1]) then StripBack(s[..|s| - 1]) else s
  }

  function Strip(s: seq<Byte>): seq<Byte> { StripBack(StripFront(s)) }

  function HexValue(b: Byte): Option<nat> {
    if 48 <= b <= 57 then Some(b - 48)
    else if 65 <= b <= 70 then Some(b - 55)
    else if 97 <= b <= 102 then Some(b - 87)
    else None
  }

  predicate IsHex(b: Byte) { HexValue(b).Some? }

  /** Hexadecimal digits, single underscores allowed between them; `digit` says whether one came last. */
  function Digits(s: seq<Byte>, acc: nat, digit: bool): Option<nat> {
    if s == [] then (if digit then Some(acc) else None)
    else if IsHex(s[0]) then Digits(s[1..], 16 * acc + HexValue(s[0]).value, true)
    else if s[0] == 95 && digit then Digits(s[1..], acc, false)
    else None
  }

  /** An optional 0x prefix, which an underscore may follow. */
  function Unsigned(s: seq<Byte>): Option<nat> {
    if |s| >= 2 && s[0] == 48 && (s[1] == 120 || s[1] == 88)
    then Digits(if |s| > 2 && s[2] == 95 then s[3..] else s[2..], 0, false)
    else Digits(s, 0, false)
  }

  /** `int(line, 16)`; None stands for ValueError. */
  function ParseInt(s: seq<Byte>): Option<int> {
    if s != [] && s[0] == 45 then
      match Unsigned(s[1..])
      case Some(n) => Some(0 - n)
      case None => None
    else
      match Unsigned(if s != [] && s[0] == 43 then s[1..] else s)
      case Some(n) => Some(n)
      case None => None
  }

  /** `read(n)`: at most `n` bytes, everything for a negative `n`. */
  function ReadLength(s: seq<Byte>, n: int): (k: nat)
    ensures k <= |s|
  {
    if n < 0 || n > |s| then |s| else n
  }

  // ---- the loop ----

  /** Body and unread rest, or the ValueError of a line that is not a number. */
  datatype Outcome = Body(data: seq<Byte>, rest: seq<Byte>) | BadSize

  function DecodeFrom(s: seq<Byte>, data: seq<Byte>): Outcome
    decreases |s|
  {
    var line := s[..LineLength(s)];
    var s1 := s[LineLength(s)..];
    EmptyLineIsBad();
    match ParseInt(Strip(line))
    case None => BadSize
    case Some(n) =>
      var k := if n != 0 then ReadLength(s1, n) else 0;
      var s2 := s1[k..];
      var s3 := s2[LineLength(s2)..];
      if n == 0 then Body(data, s3) else DecodeFrom(s3, data + s1[..k])
  }

  class Stream {
    var input: seq<Byte>

    constructor (bytes: seq<Byte>)
      ensures input == bytes
    {
      input := bytes;
    }

    method ReadLine() returns (line: seq<Byte>)
      modifies this
      ensures line == old(input)[..LineLength(old(input))] && input == old(input)[LineLength(old(input))..]
    {
      line := input[..LineLength(input)];
      input := input[LineLength(input)..];
    }

    method Read(n: int) returns (bytes: seq<Byte>)
      modifies this
      ensures bytes == old(input)[..ReadLength(old(input), n)] && input == old(input)[ReadLength(old(input), n)..]
    {
      var k := ReadLength(input, n);
      bytes := input[..k];
      input := input[k..];
    }
  }

  /** The loop of do_POST. It always terminates: an exhausted stream reads as an empty, unparsable line. */
  method ReadChunked(rfile: Stream) returns (outcome: Outcome)
    modifies rfile
    ensures outcome == DecodeFrom(old(rfile.input), [])
    ensures outcome.Body? ==> outcome.rest == rfile.input
  {
    var data: seq<Byte> := [];
    while true
      invariant DecodeFrom(old(rfile.input), []) == DecodeFrom(rfile.input, data)
      decreases |rfile.input|
    {
      EmptyLineIsBad();
      var line := rfile.ReadLine();
      var size := ParseInt(Strip(line));
      if size.None? {
        return BadSize;
      }
      if size.value != 0 {
        var chunk := rfile.Read(size.value);
        data := data + chunk;
      }
      var _ := rfile.ReadLine();
      if size.value == 0 {
        return Body(data, rfile.input);
      }
    }
  }

  lemma EmptyLineIsBad()
    ensures ParseInt(Strip([])) == None
  {
    assert Strip([]) == [];
    assert Unsigned([]) == None;
  }

  // ---- the encoding ----

  /** A chunk with its size, which any encoder may write in either case and with leading zeros, and the extension
      that section 4.1.1 lets it add behind a semicolon. */
  datatype Chunk = Chunk(size: seq<Byte>, ext: Option<seq<Byte>>, data: seq<Byte>) {
    function Line(): seq<Byte> { size + (if ext.Some? then [SEMICOLON] + ext.value else []) + CRLF }

    ghost predicate Ok() { HexDigits(size) && Value(size) == |data| && (ext.Some? ==> OneLine(ext.value)) }
  }

  /** Chunks, the zero chunk that ends them, and the trailer of section 4.1.2. */
  datatype Message = Message(chunks: seq<Chunk>, last: Chunk, trailer: seq<seq<Byte>>) {
    ghost predicate Ok() {
      && (forall i :: 0 <= i < |chunks| ==> chunks[i].Ok() && chunks[i].data != [])
      && last.Ok() && last.data == [] && (forall i :: 0 <= i < |trailer| ==> OneLine(trailer[i]))
    }

    predicate Extended() { Extensions(chunks) || last.ext.Some? }

    function Bytes(): seq<Byte> { Encode(chunks) + last.Line() + Lines(trailer) + CRLF }
  }

  predicate Extensions(chunks: seq<Chunk>) { exists i :: 0 <= i < |chunks| && chunks[i].ext.Some? }

  ghost predicate OneLine(s: seq<Byte>) { forall i :: 0 <= i < |s| ==> s[i] != LF }

  function Lines(lines: seq<seq<Byte>>): seq<Byte> {
    if lines == [] then [] else lines[0] + CRLF + Lines(lines[1..])
  }

  ghost predicate HexDigits(h: seq<Byte>) { h != [] && forall i :: 0 <= i < |h| ==> IsHex(h[i]) }

  function Value(h: seq<Byte>): nat
    requires forall i :: 0 <= i < |h| ==> IsHex(h[i])
  {
    if h == [] then 0
    else
      assert IsHex(h[|h| - 1]);
      16 * Value(h[..|h| - 1]) + HexValue(h[|h| - 1]).value
  }

  function Encode(chunks: seq<Chunk>): seq<Byte> {
    if chunks == [] then [] else chunks[0].Line() + chunks[0].data + CRLF + Encode(chunks[1..])
  }

  function Bodies(chunks: seq<Chunk>): seq<Byte> {
    if chunks == [] then [] else chunks[0].data + Bodies(chunks[1..])
  }

  // ---- size lines ----

  lemma {:induction false} DigitsValue(h: seq<Byte>, done: seq<Byte>, digit: bool)
    requires forall i :: 0 <= i < |done| ==> IsHex(done[i])
    requires forall i :: 0 <= i < |h| ==> IsHex(h[i])
    requires h != [] || digit
    ensures forall i :: 0 <= i < |done + h| ==> IsHex((done + h)[i])
    ensures Digits(h, Value(done), digit) == Some(Value(done + h))
    decreases |h|
  {
    if h == [] {
      assert done + h == done;
    } else {
      var next := done + [h[0]];
      assert next[..|next| - 1] == done;
      DigitsValue(h[1..], next, true);
      assert next + h[1..] == done + h;
    }
  }

  lemma NoDigits()
    ensures Value([]) == 0
  {
  }

  lemma ParseHexLine(h: seq<Byte>)
    requires HexDigits(h)
    ensures ParseInt(h) == Some(Value(h))
  {
    hide Digits, Value;
    assert IsHex(h[0]) && (|h| >= 2 ==> IsHex(h[1]));
    NoDigits();
    DigitsValue(h, [], false);
    assert [] + h == h;
  }

  lemma {:induction false} LineOf(h: seq<Byte>, rest: seq<Byte>)
    requires OneLine(h)
    ensures LineLength(h + [LF] + rest) == |h| + 1
  {
    var s := h + [LF] + rest;
    if h != [] {
      assert s[1..] == h[1..] + [LF] + rest;
      LineOf(h[1..], rest);
    }
  }

  lemma StripSizeLine(h: seq<Byte>)
    requires HexDigits(h)
    ensures Strip(h + CRLF) == h
  {
    var s := h + CRLF;
    assert IsHex(s[0]) && StripFront(s) == s;
    assert s[..|s| - 1] == h + [CR];
    assert (h + [CR])[..|h|] == h;
    assert IsHex(h[|h| - 1]);
    assert StripBack(h) == h;
    assert StripBack(h + [CR]) == StripBack(h);
  }

  /** Reading a size line leaves exactly what follows it. */
  lemma SizeLine(h: seq<Byte>, rest: seq<Byte>)
    requires HexDigits(h)
    ensures var s := h + CRLF + rest;
      && s[..LineLength(s)] == h + CRLF && s[LineLength(s)..] == rest
      && ParseInt(Strip(s[..LineLength(s)])) == Some(Value(h))
  {
    hide ParseInt, Strip;
    var s := h + CRLF + rest;
    var line := h + [CR];
    assert s == line + [LF] + rest;
    forall i | 0 <= i < |line| ensures line[i] != LF {
      assert i < |h| ==> IsHex(h[i]);
    }
    LineOf(line, rest);
    assert s[..LineLength(s)] == h + CRLF;
    StripSizeLine(h);
    ParseHexLine(h);
  }

  lemma CrlfLine(rest: seq<Byte>)
    ensures LineLength(CRLF + rest) == 2 && (CRLF + rest)[2..] == rest
  {
    assert CRLF + rest == [CR] + [LF] + rest;
    LineOf([CR], rest);
  }

  // ---- the round trip ----

  lemma DecodeOne(c: Chunk, rest: seq<Byte>, data: seq<Byte>)
    requires c.Ok() && c.data != [] && c.ext.None?
    ensures DecodeFrom(c.Line() + c.data + CRLF + rest, data) == DecodeFrom(rest, data + c.data)
  {
    hide LineLength, ParseInt, Strip, Value;
    var tail := c.data + CRLF + rest;
    var s := c.size + CRLF + tail;
    assert c.Line() + c.data + CRLF + rest == s;
    SizeLine(c.size, tail);
    CrlfLine(rest);
    assert tail[..|c.data|] == c.data && tail[|c.data|..] == CRLF + rest;
  }

  /** Chunks without extensions are decoded one by one; the first extension ends it all. */
  lemma {:induction false} DecodeAll(chunks: seq<Chunk>, rest: seq<Byte>, data: seq<Byte>)
    requires forall i :: 0 <= i < |chunks| ==> chunks[i].Ok() && chunks[i].data != []
    ensures DecodeFrom(Encode(chunks) + rest, data)
            == if Extensions(chunks) then BadSize else DecodeFrom(rest, data + Bodies(chunks))
  {
    hide DecodeFrom, Chunk.Line;
    if chunks == [] {
      assert Encode(chunks) + rest == rest && data + Bodies(chunks) == data;
    } else {
      var c := chunks[0];
      var more := Encode(chunks[1..]) + rest;
      assert Encode(chunks) + rest == c.Line() + c.data + CRLF + more;
      if c.ext.Some? {
        assert Encode(chunks) + rest == c.Line() + (c.data + CRLF + more);
        ExtensionIsRefused(c, c.data + CRLF + more, data);
      } else {
        DecodeOne(c, more, data);
        DecodeAll(chunks[1..], rest, data + c.data);
        assert data + c.data + Bodies(chunks[1..]) == data + Bodies(chunks);
        assert forall i :: 0 < i < |chunks| ==> chunks[i] == chunks[1..][i - 1];
      }
    }
  }

  /** After the zero chunk exactly one line is consumed: the final CRLF, or only the first line of a trailer. */
  lemma RoundTrip(chunks: seq<Chunk>, zero: seq<Byte>, line: seq<Byte>, rest: seq<Byte>)
    requires (forall i :: 0 <= i < |chunks| ==> chunks[i].Ok() && chunks[i].data != []) && !Extensions(chunks)
    requires HexDigits(zero) && Value(zero) == 0 && OneLine(line)
    ensures DecodeFrom(Encode(chunks) + (zero + CRLF + (line + [LF] + rest)), []) == Body(Bodies(chunks), rest)
  {
    hide LineLength, ParseInt, Strip;
    var last := line + [LF] + rest;
    DecodeAll(chunks, zero + CRLF + last, []);
    SizeLine(zero, last);
    LineOf(line, rest);
    assert last[|line| + 1..] == rest;
    assert [] + Bodies(chunks) == Bodies(chunks);
  }

  /** What the loop leaves unread of a message. */
  function Unread(m: Message): seq<Byte> {
    if m.trailer == [] then [] else Lines(m.trailer[1..]) + CRLF
  }

  /** What the loop makes of every message that RFC 7230 allows. */
  lemma MessageDecodes(m: Message, rest: seq<Byte>)
    requires m.Ok()
    ensures DecodeFrom(m.Bytes() + rest, [])
            == if m.Extended() then BadSize else Body(Bodies(m.chunks), Unread(m) + rest)
  {
    hide DecodeFrom, Lines, Encode, Extensions;
    var tail := Lines(m.trailer) + CRLF + rest;
    assert m.Bytes() + rest == Encode(m.chunks) + (m.last.Line() + tail);
    if Extensions(m.chunks) {
      DecodeAll(m.chunks, m.last.Line() + tail, []);
    } else if m.last.ext.Some? {
      DecodeAll(m.chunks, m.last.Line() + tail, []);
      ExtensionIsRefused(m.last, tail, [] + Bodies(m.chunks));
    } else {
      var line := if m.trailer == [] then [CR] else m.trailer[0] + [CR];
      AfterZero(m, rest);
      assert m.last.Line() + tail == m.last.size + CRLF + (line + [LF] + (Unread(m) + rest));
      RoundTrip(m.chunks, m.last.size, line, Unread(m) + rest);
    }
  }

  lemma AfterZero(m: Message, rest: seq<Byte>)
    ensures var line := if m.trailer == [] then [CR] else m.trailer[0] + [CR];
            Lines(m.trailer) + CRLF + rest == line + [LF] + (Unread(m) + rest)
  {
  }

  /** A message is decoded to its data, with nothing left unread, if and only if no chunk, the zero chunk included, has
      an extension and there is no trailer. */
  lemma DecodedIff(m: Message, rest: seq<Byte>)
    requires m.Ok()
    ensures DecodeFrom(m.Bytes() + rest, []) == Body(Bodies(m.chunks), rest) <==> !m.Extended() && m.trailer == []
  {
    hide DecodeFrom, Lines, Encode, Extensions;
    MessageDecodes(m, rest);
    assert m.trailer != [] ==> |Unread(m) + rest| > |rest|;
    assert m.trailer == [] ==> Unread(m) + rest == rest;
  }

  // ---- what is refused ----

  lemma {:induction false} DigitsStop(h: seq<Byte>, c: Byte, t: seq<Byte>, acc: nat, digit: bool)
    requires forall i :: 0 <= i < |h| ==> IsHex(h[i])
    requires !IsHex(c) && c != 95
    ensures Digits(h + [c] + t, acc, digit) == None
    decreases |h|
  {
    var s := h + [c] + t;
    if h != [] {
      assert s[1..] == h[1..] + [c] + t;
      DigitsStop(h[1..], c, t, 16 * acc + HexValue(h[0]).value, true);
    }
  }

  lemma {:induction false} StripBackPrefix(s: seq<Byte>, k: nat)
    requires k < |s| && !IsSpace(s[k])
    ensures |StripBack(s)| > k
    decreases |s|
  {
    if IsSpace(s[|s| - 1]) {
      StripBackPrefix(s[..|s| - 1], k);
    }
  }

  /** A chunk extension, which section 4.1.1 of RFC 7230 lets a sender add, is an error here: the size line is
      parsed as a whole. */
  lemma ExtensionIsRefused(c: Chunk, rest: seq<Byte>, data: seq<Byte>)
    requires c.Ok() && c.ext.Some?
    ensures DecodeFrom(c.Line() + rest, data) == BadSize
  {
    var ext := c.ext.value + [CR];
    var line := c.size + [SEMICOLON] + ext;
    var s := line + [LF] + rest;
    assert c.Line() + rest == s;
    forall i | 0 <= i < |line| ensures line[i] != LF {
      assert i < |c.size| ==> IsHex(c.size[i]);
    }
    LineOf(line, rest);
    RefusedLine(c.size, ext);
    assert s[..LineLength(s)] == line + [LF];
  }

  lemma RefusedLine(h: seq<Byte>, ext: seq<Byte>)
    requires HexDigits(h)
    ensures ParseInt(Strip(h + [SEMICOLON] + ext + [LF])) == None
  {
    var l := h + [SEMICOLON] + ext + [LF];
    assert IsHex(l[0]) && StripFront(l) == l;
    StripBackPrefix(l, |h|);
    var t := StripBack(l);
    assert t == h + [SEMICOLON] + t[|h| + 1..];
    assert IsHex(t[0]);
    assert |h| > 1 ==> IsHex(t[1]);
    DigitsStop(h, SEMICOLON, t[|h| + 1..], 0, false);
  }
}
