/** chunkedWriter and chunkedReader as they run.  The writer's calls put exactly the encoding on the
    wire; the reader, whose progress inside a line, a chunk and a CRLF lives in fields, does what the
    reference of `ChunkedCoding` does. */
module ChunkedConn {
  import opened Octets
  import opened Connection
  import opened Downstream
  import C = ChunkedCoding

  datatype WriteError = Written | SinkFailed | ShortWrite

  class ChunkedWriter {
    const sink: Sink
    var buf: Bytes

    constructor (sink: Sink)
      ensures this.sink == sink
    {
      this.sink := sink;
      buf := [];
    }

    /** A write that is reported written has put one whole chunk on the wire. */
    method Write(p: Bytes) returns (n: nat, err: WriteError)
      modifies this, sink
      ensures p == [] ==> n == 0 && err == Written && sink.wire == old(sink.wire)
      ensures err == Written ==> n == |p|
      ensures p != [] ==>
        var t := Answer(C.Chunk(p), old(sink.plan));
        (err == Written <==> t.ok && t.n == |C.Chunk(p)|) && (err == SinkFailed <==> !t.ok)
      ensures err == Written && p != [] ==> sink.wire == old(sink.wire) + C.Chunk(p)
      ensures err != Written ==> n == 0 && old(sink.wire) <= sink.wire <= old(sink.wire) + C.Chunk(p)
    {
      if |p| == 0 {
        return 0, Written;
      }
      buf := C.Hex(|p|);
      buf := buf + [C.CR, N.LF];
      buf := buf + p;
      buf := buf + [C.CR, N.LF];
      Pieces(C.Hex(|p|), p);
      var t := sink.Write(buf);
      if !t.ok {
        return 0, SinkFailed;
      }
      if t.n != |buf| {
        return 0, ShortWrite;
      }
      assert buf[..|buf|] == buf;
      return |p|, Written;
    }

    /** Only the transport's error is looked at; what it took is what is on the wire. */
    method Close() returns (ok: bool)
      modifies sink
      ensures var t := Answer(C.Encoded([]), old(sink.plan));
        && ok == t.ok
        && sink.wire == old(sink.wire) + C.Encoded([])[..Min(t.n, |C.Encoded([])|)]
        && (t.n >= |C.Encoded([])| ==> sink.wire == old(sink.wire) + C.Encoded([]))
    {
      var end: Bytes := [48, C.CR, N.LF, C.CR, N.LF];
      assert end == C.Encoded([]);
      var t := sink.Write(end);
      assert end[..|end|] == end;
      ok := t.ok;
    }
  }

  lemma Pieces(h: Bytes, p: Bytes)
    ensures h + [C.CR, N.LF] + p + [C.CR, N.LF] == h + (C.CRLF + (p + C.CRLF))
  {
    Assoc(h, C.CRLF, p + C.CRLF);
    Assoc(h + C.CRLF, p, C.CRLF);
  }

  method CopyInto(p: array<byte>, data: Bytes)
    requires |data| <= p.Length
    modifies p
    ensures p[..|data|] == data
  {
    forall i | 0 <= i < |data| {
      p[i] := data[i];
    }
  }

  class ChunkedReader {
    const source: Source
    const crlf: array<byte>
    var chunkLeft: nat
    var chunkEnded: bool
    var partial: Bytes
    var needCRLF: bool
    var crlfRead: nat
    var trailers: bool
    var trailerBytes: nat
    var trailerLines: nat
    var terminal: N.Error

    ghost predicate Valid()
      reads this, crlf
    {
      crlf.Length == 2 && crlfRead <= 2
    }

    ghost function State(): C.Reader
      reads this, crlf
      requires Valid()
    {
      C.Reader(chunkLeft, needCRLF, crlf[..crlfRead], partial, trailers,
               trailerBytes, trailerLines, chunkEnded, terminal)
    }

    constructor (source: Source)
      ensures Valid() && this.source == source && State() == C.Fresh && fresh(crlf)
    {
      this.source := source;
      crlf := new byte[2];
      chunkLeft, chunkEnded, partial, needCRLF, crlfRead := 0, false, [], false, 0;
      trailers, trailerBytes, trailerLines, terminal := false, 0, 0, N.None;
    }

    /** The reader and the connection stand where the stage left them. */
    ghost predicate After(s: C.Stage)
      reads this, crlf, source
    {
      Valid() && State() == s.r && source.events == s.rest
    }

    method ReadError(err: N.Error)
      modifies this`terminal
      ensures terminal == if err == N.Timeout then old(terminal) else err
    {
      if err != N.Timeout {
        terminal := err;
      }
    }

    method FillCrlf() returns (err: N.Error)
      requires Valid()
      modifies this`crlfRead, crlf, source
      ensures Valid()
      ensures var f := N.ReadFull(old(source.events), 2 - old(crlfRead));
        State() == old(State()).(crlf := old(State()).crlf + f.got) && source.events == f.rest && err == f.stop
    {
      var n;
      n, err := source.ReadFull(crlf, crlfRead, 2);
      crlfRead := crlfRead + n;
    }

    method ReadCrlf() returns (err: N.Error)
      requires Valid()
      modifies this`needCRLF, this`crlfRead, this`terminal, crlf, source
      ensures var s := C.ReadCrlf(old(State()), old(source.events));
        After(s) && (s.Go? <==> err == N.None) && (s.Answer? ==> s.err == err && s.out == [])
    {
      err := N.None;
      if needCRLF {
        ghost var s := C.ReadCrlf(State(), source.events);
        assert s == C.TakeCrlf(State(), N.ReadFull(source.events, 2 - crlfRead));
        err := FillCrlf();
        if err != N.None {
          ReadError(err);
        } else {
          assert crlf[..] == crlf[..crlfRead];
          if crlf[0] != C.CR || crlf[1] != N.LF {
            err, terminal := N.Malformed, N.Malformed;
          } else {
            assert crlf[..] == C.CRLF;
            needCRLF, crlfRead := false, 0;
          }
        }
      }
    }

    /** One line, kept in `partial` while it is incomplete. */
    method ReadLine(limit: int) returns (line: Bytes, err: N.Error)
      modifies this`partial, source
      ensures var l := C.Line(old(partial), old(source.events), limit);
        line == l.line && err == l.err && partial == l.partial && source.events == l.rest
    {
      var f := source.ReadSlice();
      if |f.got| > limit - |partial| {
        return [], N.Malformed;
      }
      partial := partial + f.got;
      if f.stop != N.None {
        return [], f.stop;
      }
      if |partial| < 2 || partial[|partial| - 2] != C.CR {
        return [], N.Malformed;
      }
      line := partial[..|partial| - 2];
      partial := [];
      err := N.None;
    }

    method ReadSize() returns (err: N.Error)
      requires Valid()
      modifies this`partial, this`chunkLeft, this`trailers, this`terminal, source
      ensures var s := C.ReadSize(old(State()), old(source.events));
        After(s) && (s.Go? <==> err == N.None) && (s.Answer? ==> s.err == err && s.out == [])
    {
      err := N.None;
      if chunkLeft == 0 && !trailers {
        var line;
        line, err := ReadLine(C.MAX_CHUNK_LINE);
        if err != N.None {
          ReadError(err);
          return;
        }
        var size := C.ParseSize(line);
        if size.BadSize? || size.n > C.MAX_CHUNK {
          terminal := N.Malformed;
          return N.Malformed;
        }
        chunkLeft := size.n;
        trailers := size.n == 0;
      }
    }

    method TrailerLine(valid: Bytes -> bool) returns (err: N.Error)
      requires Valid() && trailers
      modifies this`partial, this`trailerBytes, this`trailerLines, this`chunkEnded, this`terminal, source
      ensures var s := C.TrailerLine(old(State()), old(source.events), valid);
        After(s) && (s.Go? <==> err == N.None) && (s.Answer? ==> s.err == err && s.out == [])
    {
      var limit := Min(C.MAX_LINE, C.MAX_TRAILER - trailerBytes);
      ghost var l := C.Line(partial, source.events, limit);
      assert C.TrailerLine(State(), source.events, valid) == C.TakeTrailer(State(), l, valid);
      assert C.TakeTrailer(State(), l, valid) == C.TakeTrailer(State().(partial := l.partial), l, valid);
      var line;
      line, err := ReadLine(limit);
      err := TakeTrailer(line, err, valid);
    }

    /** What the line that was read, or the error `e`, means. */
    method TakeTrailer(line: Bytes, e: N.Error, valid: Bytes -> bool) returns (err: N.Error)
      requires Valid()
      modifies this`trailerBytes, this`trailerLines, this`chunkEnded, this`terminal
      ensures Valid()
      ensures var s := C.TakeTrailer(old(State()), C.LineRead(line, partial, e, source.events), valid);
        After(s) && (s.Go? <==> err == N.None) && (s.Answer? ==> s.err == err && s.out == [])
    {
      err := e;
      if err != N.None {
        ReadError(err);
        return;
      }
      trailerBytes := trailerBytes + |line| + 2;
      if |line| == 0 {
        chunkEnded := true;
        return N.Eof;
      }
      trailerLines := trailerLines + 1;
      if trailerLines > C.MAX_TRAILER_LINES || !valid(line) {
        terminal := N.Malformed;
        return N.Malformed;
      }
    }

    /** Reads trailer lines until the empty one. */
    method ReadTrailers(valid: Bytes -> bool) returns (err: N.Error)
      requires Valid() && trailers
      modifies this`partial, this`trailerBytes, this`trailerLines, this`chunkEnded, this`terminal, source
      ensures var s := C.ReadTrailers(old(State()), old(source.events), valid);
        After(s) && s.Answer? && s.err == err && s.out == []
    {
      err := N.None;
      ghost var goal := C.ReadTrailers(State(), source.events, valid);
      while err == N.None
        invariant Valid()
        invariant err == N.None ==> C.ReadTrailers(State(), source.events, valid) == goal
        invariant err != N.None ==> After(goal) && goal.Answer? && goal.err == err && goal.out == []
        decreases |source.events|, err == N.None
      {
        err := TrailerLine(valid);
      }
    }

    method ReadData(p: array<byte>, fragment: nat) returns (n: nat, err: N.Error)
      requires Valid() && p != crlf && p.Length > 0
      modifies p, this`chunkLeft, this`needCRLF, this`terminal, source
      ensures var s := C.ReadData(old(State()), p.Length, fragment, old(source.events));
        After(s) && n == |s.out| <= p.Length && p[..n] == s.out && err == s.err
    {
      var most := if p.Length < chunkLeft then p.Length else chunkLeft;
      var f := source.ReadSome(if 0 < fragment < most then fragment else most);
      n, err := |f.got|, f.stop;
      CopyInto(p, f.got);
      chunkLeft := chunkLeft - n;
      if chunkLeft == 0 {
        needCRLF := true;
      }
      if err != N.None {
        ReadError(err);
      }
    }

    /** `fragment` is how much the connection gives at most in one Read. */
    method Read(p: array<byte>, fragment: nat, valid: Bytes -> bool) returns (n: nat, err: N.Error)
      requires Valid() && p != crlf
      modifies this, crlf, p, source
      ensures var s := C.Read(old(State()), C.Call(p.Length, fragment), old(source.events), valid);
        s.Answer? ==> After(s) && n == |s.out| <= p.Length && p[..n] == s.out && err == s.err
      ensures C.Read(old(State()), C.Call(p.Length, fragment), old(source.events), valid).Answer?
    {
      n, err := 0, N.None;
      if p.Length == 0 {
        return;
      }
      if terminal != N.None {
        return 0, terminal;
      }
      if chunkEnded {
        return 0, N.Eof;
      }
      err := ReadCrlf();
      if err != N.None {
        return;
      }
      err := ReadSize();
      if err != N.None {
        return;
      }
      if trailers {
        err := ReadTrailers(valid);
        return;
      }
      n, err := ReadData(p, fragment);
    }
  }
}
