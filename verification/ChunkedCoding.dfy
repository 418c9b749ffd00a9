/** The chunked transfer coding of pkg/client/conn_h1.go (section 7.1 of RFC 9112): the bytes that
    chunkedWriter sends, and chunkedReader, which resumes after a deadline expiry inside a size line, a
    chunk, its CRLF or the trailer.

    `cut` stands for the end of the encoding that never arrives.  Whatever the network does to timing
    and fragments, and wherever it fails, the reader delivers an initial part of what was written; it
    reports the end exactly when nothing was cut off and everything was delivered. */
module ChunkedCoding {
  import opened Octets
  import opened Network

  const CR: byte := 13
  const CRLF: Bytes := [CR, LF]
  const MAX_CHUNK := 65536
  const MAX_CHUNK_LINE := 1024
  const MAX_LINE := 4096
  const MAX_TRAILER := 16384
  const MAX_TRAILER_LINES := 64

  // ---------------------------------------------------------------- sizes in hexadecimal

  function Digit(d: nat): byte
    requires d < 16
  {
    if d < 10 then 48 + d else 87 + d
  }

  function Hex(n: nat): (h: Bytes)
    ensures h != []
  {
    if n < 16 then [Digit(n)] else Hex(n / 16) + [Digit(n % 16)]
  }

  predicate IsHex(b: byte) { 48 <= b <= 57 || 97 <= b <= 102 || 65 <= b <= 70 }

  function DigitValue(b: byte): (v: nat)
    requires IsHex(b)
    ensures v < 16
  {
    if b <= 57 then b - 48 else if b >= 97 then b - 87 else b - 55
  }

  predicate AllHex(line: Bytes) { forall i | 0 <= i < |line| :: IsHex(line[i]) }

  function HexValue(line: Bytes): nat
    requires AllHex(line)
  {
    if line == [] then 0 else 16 * HexValue(line[..|line| - 1]) + DigitValue(line[|line| - 1])
  }

  datatype Size = Size(n: nat) | BadSize

  /** Sixteen digits or fewer, within 64-bit signed range. */
  function ParseSize(line: Bytes): Size {
    if line == [] || |line| > 16 || !AllHex(line) || HexValue(line) > 0x7FFF_FFFF_FFFF_FFFF then BadSize
    else Size(HexValue(line))
  }

  lemma {:induction false} HexParses(n: nat)
    ensures AllHex(Hex(n)) && HexValue(Hex(n)) == n
  {
    if n >= 16 {
      HexParses(n / 16);
      assert Hex(n)[..|Hex(n)| - 1] == Hex(n / 16);
    }
  }

  lemma HexShort(n: nat)
    requires n <= MAX_CHUNK
    ensures |Hex(n)| <= 5
  {
    var a := n / 16;
    var b := a / 16;
    var c := b / 16;
    var d := c / 16;
    assert d < 16;
    assert |Hex(d)| == 1;
    assert |Hex(c)| <= 2;
    assert |Hex(b)| <= 3;
    assert |Hex(a)| <= 4;
  }

  lemma SizeParses(n: nat)
    requires n <= MAX_CHUNK
    ensures ParseSize(Hex(n)) == Size(n) && NoLf(Hex(n)) && |Hex(n)| <= 5
  {
    HexParses(n);
    HexShort(n);
  }

  // ---------------------------------------------------------------- what the writer sends

  function Chunk(data: Bytes): Bytes { Hex(|data|) + (CRLF + (data + CRLF)) }

  function Encoded(writes: seq<Bytes>): Bytes {
    if writes == [] then Hex(0) + (CRLF + CRLF) else Chunk(writes[0]) + Encoded(writes[1..])
  }

  /** What the writes put on the wire one after the other, before the stream is closed. */
  function Chunks(writes: seq<Bytes>): Bytes {
    if writes == [] then [] else Chunks(writes[..|writes| - 1]) + Chunk(writes[|writes| - 1])
  }

  lemma {:induction false} ChunksFirst(first: Bytes, writes: seq<Bytes>)
    ensures Chunks([first] + writes) == Chunk(first) + Chunks(writes)
  {
    var all := [first] + writes;
    if writes == [] {
      assert all[..0] == [] && all == [first];
    } else {
      var n := |writes| - 1;
      assert all[..|all| - 1] == [first] + writes[..n];
      ChunksFirst(first, writes[..n]);
      Assoc(Chunk(first), Chunks(writes[..n]), Chunk(writes[n]));
    }
  }

  lemma {:induction false} ChunksThenEnd(writes: seq<Bytes>)
    ensures Chunks(writes) + Encoded([]) == Encoded(writes)
  {
    if writes == [] {
      assert [] + Encoded([]) == Encoded([]);
    } else {
      ChunksThenEnd(writes[1..]);
      ChunksFirst(writes[0], writes[1..]);
      assert [writes[0]] + writes[1..] == writes;
      Assoc(Chunk(writes[0]), Chunks(writes[1..]), Encoded([]));
    }
  }

  ghost predicate Writable(writes: seq<Bytes>) {
    forall i | 0 <= i < |writes| :: 0 < |writes[i]| <= MAX_CHUNK
  }

  // ---------------------------------------------------------------- the reader

  datatype Reader = Reader(
    left: nat,
    needCrlf: bool,
    crlf: Bytes,
    partial: Bytes,
    trailers: bool,
    trailerBytes: nat,
    trailerLines: nat,
    ended: bool,
    terminal: Error)

  const Fresh := Reader(0, false, [], [], false, 0, 0, false, None)

  /** A stage goes on to the next one or answers the call. */
  datatype Stage = Go(r: Reader, rest: seq<Event>) | Answer(r: Reader, out: Bytes, err: Error, rest: seq<Event>)

  function Stop(r: Reader, err: Error, rest: seq<Event>): Stage {
    Answer(if err == Timeout then r else r.(terminal := err), [], err, rest)
  }

  function TakeCrlf(r: Reader, f: Fill): Stage {
    var r' := r.(crlf := r.crlf + f.got);
    if f.stop != None then Stop(r', f.stop, f.rest)
    else if r'.crlf != CRLF then Stop(r', Malformed, f.rest)
    else Go(r'.(needCrlf := false, crlf := []), f.rest)
  }

  function ReadCrlf(r: Reader, events: seq<Event>): Stage {
    if r.needCrlf then TakeCrlf(r, ReadFull(events, if |r.crlf| < 2 then 2 - |r.crlf| else 0)) else Go(r, events)
  }

  /** One line with its CRLF taken off, or the reason there is none. */
  datatype LineRead = LineRead(line: Bytes, partial: Bytes, err: Error, rest: seq<Event>)

  function Line(partial: Bytes, events: seq<Event>, limit: int): LineRead {
    var f := ReadLine(events);
    var all := partial + f.got;
    if |all| > limit then LineRead([], partial, Malformed, f.rest)
    else if f.stop != None then LineRead([], all, f.stop, f.rest)
    else if |all| < 2 || all[|all| - 2] != CR then LineRead([], all, Malformed, f.rest)
    else LineRead(all[..|all| - 2], [], None, f.rest)
  }

  function TakeSize(r: Reader, l: LineRead): Stage {
    var r' := r.(partial := l.partial);
    if l.err != None then Stop(r', l.err, l.rest)
    else
      match ParseSize(l.line)
      case BadSize => Stop(r', Malformed, l.rest)
      case Size(n) =>
        if n > MAX_CHUNK then Stop(r', Malformed, l.rest)
        else Go(r'.(left := n, trailers := n == 0), l.rest)
  }

  function ReadSize(r: Reader, events: seq<Event>): Stage {
    if r.left != 0 || r.trailers then Go(r, events)
    else TakeSize(r, Line(r.partial, events, MAX_CHUNK_LINE))
  }

  /** What a trailer line means; `valid` is the library's test of a header line. */
  function TakeTrailer(r: Reader, l: LineRead, valid: Bytes -> bool): Stage {
    var r' := r.(partial := l.partial);
    if l.err != None then Stop(r', l.err, l.rest)
    else
      var counted := r'.(trailerBytes := r.trailerBytes + |l.line| + 2);
      if l.line == [] then Answer(counted.(ended := true), [], Eof, l.rest)
      else
        var more := counted.(trailerLines := r.trailerLines + 1);
        if more.trailerLines > MAX_TRAILER_LINES || !valid(l.line) then Stop(more, Malformed, l.rest)
        else Go(more, l.rest)
  }

  function TrailerLine(r: Reader, events: seq<Event>, valid: Bytes -> bool): (s: Stage)
    ensures |s.rest| <= |events| && (events != [] ==> |s.rest| < |events|) && (s.Go? ==> |s.rest| < |events|)
    ensures s.Go? ==> s.r.trailers == r.trailers && s.r.terminal == r.terminal
  {
    TakeTrailer(r, Line(r.partial, events, Min(MAX_LINE, MAX_TRAILER - r.trailerBytes)), valid)
  }

  /** Trailer lines up to the empty one. */
  function ReadTrailers(r: Reader, events: seq<Event>, valid: Bytes -> bool): Stage
    decreases |events|
  {
    if !r.trailers then Go(r, events)
    else
      var s := TrailerLine(r, events, valid);
      if s.Answer? then s else ReadTrailers(s.r, s.rest, valid)
  }

  /** `fragment` is how much the connection gives at most in one Read. */
  function ReadData(r: Reader, want: nat, fragment: nat, events: seq<Event>): Stage {
    var most := if want < r.left then want else r.left;
    var f := ReadSome(events, if 0 < fragment < most then fragment else most);
    var left := if |f.got| <= r.left then r.left - |f.got| else 0;
    var r' := r.(left := left, needCrlf := r.needCrlf || left == 0);
    Answer(if f.stop == None || f.stop == Timeout then r' else r'.(terminal := f.stop), f.got, f.stop, f.rest)
  }

  datatype Call = Call(want: nat, fragment: nat)

  function Read(r: Reader, call: Call, events: seq<Event>, valid: Bytes -> bool): Stage {
    if call.want == 0 then Answer(r, [], None, events)
    else if r.terminal != None then Answer(r, [], r.terminal, events)
    else if r.ended then Answer(r, [], Eof, events)
    else
      var a := ReadCrlf(r, events);
      if a.Answer? then a
      else
        var b := ReadSize(a.r, a.rest);
        if b.Answer? then b
        else
          var c := ReadTrailers(b.r, b.rest, valid);
          if c.Answer? then c else ReadData(c.r, call.want, call.fragment, c.rest)
  }

  /** All that a run of calls delivers, and what the last one reports. */
  function Reads(r: Reader, calls: seq<Call>, events: seq<Event>, valid: Bytes -> bool): Stage {
    if calls == [] then Answer(r, [], None, events)
    else
      var before := Reads(r, calls[..|calls| - 1], events, valid);
      if before.Go? then before
      else
        var s := Read(before.r, calls[|calls| - 1], before.rest, valid);
        if s.Go? then s else s.(out := before.out + s.out)
  }
}
