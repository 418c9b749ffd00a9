/** FramedReader as it runs: a two-byte header buffer, a body buffer that grows on demand and keeps a
    partial body across deadline expiries, and an offset into the decrypted bytes.  `Read` is proved to
    do what the reference of `RawReader` does. */
module RawFramedReader {
  import opened Octets
  import opened RawRecord
  import opened RawFramedWriter
  import opened Connection
  import R = RawReader

  class FramedReader {
    const source: Source
    const stream: AEADStream
    const hdrBuf: array<byte>
    var rawBuf: array<byte>
    var decBuf: Bytes
    var decOff: nat
    var eofReached: bool
    var fatalErr: N.Error
    var headerRead: nat
    var bodyRead: nat

    ghost predicate Shaped()
      reads this, hdrBuf
    {
      && hdrBuf.Length == 2 && headerRead <= 2 && bodyRead <= rawBuf.Length
      && decOff <= |decBuf|
      && hdrBuf != rawBuf
    }

    ghost function State(): R.Reader
      reads this, stream, hdrBuf, rawBuf
      requires Shaped()
    {
      R.Reader(hdrBuf[..headerRead], rawBuf[..bodyRead], decBuf[decOff..], stream.sequence, fatalErr, eofReached)
    }

    /** A body that was begun has room for its rest. */
    ghost predicate Roomy()
      reads this, hdrBuf, rawBuf
      requires Shaped()
    {
      bodyRead > 0 ==> headerRead == 2 && Value(hdrBuf[..headerRead]) <= rawBuf.Length
    }

    ghost predicate Valid()
      reads this, stream, hdrBuf, rawBuf
    {
      Shaped() && Roomy() && R.Valid(State())
    }

    constructor (source: Source, stream: AEADStream)
      requires stream.sequence == 0
      ensures Valid() && State() == R.Fresh
      ensures this.source == source && this.stream == stream && fresh(hdrBuf) && fresh(rawBuf)
    {
      this.source, this.stream := source, stream;
      hdrBuf, rawBuf := new byte[2], new byte[0];
      decBuf, decOff, eofReached, fatalErr, headerRead, bodyRead := [], 0, false, N.None, 0, 0;
    }

    /** Keeps a partial record for a later deadline, and makes every other error permanent. */
    method ReadError(err: N.Error) returns (r: N.Error)
      modifies this`fatalErr
      ensures r == err && fatalErr == if err == N.Timeout then old(fatalErr) else err
    {
      if err != N.Timeout {
        fatalErr := err;
      }
      return err;
    }

    /** Delivers decrypted bytes into `p`. */
    method Copy(p: array<byte>) returns (n: nat)
      requires Shaped() && p != hdrBuf && p != rawBuf
      modifies p, this`decOff
      ensures Shaped()
      ensures var o := R.Deliver(old(State()), p.Length, source.events);
        State() == o.r && n == |o.out| <= p.Length && p[..n] == o.out
    {
      n := if |decBuf| - decOff < p.Length then |decBuf| - decOff else p.Length;
      forall i | 0 <= i < n {
        p[i] := decBuf[decOff + i];
      }
      decOff := decOff + n;
      assert p[..n] == old(decBuf[decOff..])[..n];
    }

    method FillHeader() returns (err: N.Error)
      requires Shaped()
      modifies this`headerRead, this`fatalErr, hdrBuf, source
      ensures Shaped()
      ensures var f := N.ReadFull(old(source.events), 2 - old(headerRead));
        && source.events == f.rest && err == f.stop
        && hdrBuf[..headerRead] == old(hdrBuf[..headerRead]) + f.got
        && fatalErr == if err == N.None || err == N.Timeout then old(fatalErr) else err
    {
      err := N.None;
      if headerRead < hdrBuf.Length {
        var n;
        n, err := source.ReadFull(hdrBuf, headerRead, hdrBuf.Length);
        headerRead := headerRead + n;
        if err != N.None {
          err := ReadError(err);
        }
      }
    }

    /** Makes room for a body of `wireLen` bytes, keeping what was read of it, and reads the rest. */
    method FillBody(wireLen: nat) returns (err: N.Error)
      requires Shaped() && bodyRead <= wireLen && (bodyRead > 0 ==> wireLen <= rawBuf.Length)
      modifies this`rawBuf, this`bodyRead, this`fatalErr, rawBuf, source
      ensures Shaped() && wireLen <= rawBuf.Length && (rawBuf == old(rawBuf) || fresh(rawBuf))
      ensures var f := N.ReadFull(old(source.events), wireLen - old(bodyRead));
        && source.events == f.rest && err == f.stop && bodyRead == old(bodyRead) + |f.got|
        && State() == old(State()).(
          body := old(State()).body + f.got,
          fatal := if err == N.None || err == N.Timeout then old(fatalErr) else err)
    {
      if rawBuf.Length < wireLen {
        rawBuf := new byte[wireLen];
      }
      assert rawBuf[..bodyRead] == old(rawBuf[..bodyRead]);
      var n;
      n, err := source.ReadFull(rawBuf, bodyRead, wireLen);
      bodyRead := bodyRead + n;
      if err != N.None {
        err := ReadError(err);
      }
    }

    method Decrypt(p: array<byte>, wireLen: nat) returns (n: nat, err: N.Error)
      requires Shaped() && p != hdrBuf && p != rawBuf && p.Length > 0
      requires R.Reading(State()) && headerRead == 2 && wireLen == Value(State().head) && bodyRead == wireLen
      modifies p, stream, this`decBuf, this`decOff, this`eofReached, this`fatalErr, this`headerRead, this`bodyRead
      ensures Shaped()
      ensures var o := R.Unseal(stream.cipher, old(State()), p.Length, source.events);
        State() == o.r && n == |o.out| <= p.Length && p[..n] == o.out && err == o.err
    {
      var answer := stream.DecryptChunk(rawBuf[..wireLen], wireLen);
      n := 0;
      if answer.Rejected? {
        decBuf, decOff := [], 0;
        fatalErr := N.DecryptionFailed;
        return 0, N.DecryptionFailed;
      }
      decBuf, decOff := answer.payload, 0;
      headerRead, bodyRead := 0, 0;
      if |decBuf| == 0 {
        eofReached := true;
        return 0, N.Eof;
      }
      n := Copy(p);
      err := N.None;
    }

    method Read(p: array<byte>) returns (n: nat, err: N.Error)
      requires Valid() && p != hdrBuf && p != rawBuf
      modifies this, hdrBuf, rawBuf, p, source, stream
      ensures Valid() && (rawBuf == old(rawBuf) || fresh(rawBuf))
      ensures var o := R.Read(stream.cipher, old(State()), p.Length, old(source.events));
        && State() == o.r && source.events == o.rest
        && n == |o.out| <= p.Length && p[..n] == o.out && err == o.err
    {
      R.ReadValid(stream.cipher, State(), p.Length, source.events);
      n, err := 0, N.None;
      if p.Length == 0 {
        return;
      }
      if decOff < |decBuf| {
        n := Copy(p);
        return;
      }
      if fatalErr != N.None {
        return 0, fatalErr;
      }
      if eofReached {
        return 0, N.Eof;
      }
      n, err := ReadRecord(p);
    }

    method ReadRecord(p: array<byte>) returns (n: nat, err: N.Error)
      requires Valid() && p != hdrBuf && p != rawBuf && p.Length > 0 && R.Reading(State())
      modifies this, hdrBuf, rawBuf, p, source, stream
      ensures Shaped() && Roomy() && (rawBuf == old(rawBuf) || fresh(rawBuf))
      ensures var o := R.ReadHead(stream.cipher, old(State()), p.Length, old(source.events));
        && State() == o.r && source.events == o.rest
        && n == |o.out| <= p.Length && p[..n] == o.out && err == o.err
    {
      n := 0;
      err := FillHeader();
      if err == N.None {
        assert hdrBuf[..] == hdrBuf[..headerRead];
        n, err := ReadBody(p);
      }
    }

    method ReadBody(p: array<byte>) returns (n: nat, err: N.Error)
      requires Shaped() && Roomy() && p != hdrBuf && p != rawBuf && p.Length > 0 && R.Reading(State())
      requires headerRead == 2 && bodyRead <= Value(hdrBuf[..headerRead])
      modifies this, rawBuf, p, source, stream
      ensures Shaped() && Roomy() && (rawBuf == old(rawBuf) || fresh(rawBuf))
      ensures var o := R.ReadBody(stream.cipher, old(State()), p.Length, old(source.events));
        && State() == o.r && source.events == o.rest
        && n == |o.out| <= p.Length && p[..n] == o.out && err == o.err
    {
      n := 0;
      assert hdrBuf[..] == State().head;
      var wireLen := Value(hdrBuf[..]);
      if wireLen < TAG {
        err := Reject(N.DecryptionFailed);
      } else if wireLen > MAX_WIRE {
        err := Reject(N.TooLarge);
      } else {
        ghost var missing := wireLen - bodyRead;
        assert R.ReadBody(stream.cipher, State(), p.Length, source.events)
          == R.Finish(stream.cipher, State(), p.Length, N.ReadFull(source.events, missing));
        n, err := FinishRecord(p, wireLen);
      }
    }

    method Reject(e: N.Error) returns (err: N.Error)
      requires Shaped()
      modifies this`fatalErr
      ensures Shaped() && State() == old(State()).(fatal := e) && err == e
    {
      fatalErr := e;
      err := e;
    }

    method FinishRecord(p: array<byte>, wireLen: nat) returns (n: nat, err: N.Error)
      requires Shaped() && Roomy() && p != hdrBuf && p != rawBuf && p.Length > 0 && R.Reading(State())
      requires headerRead == 2 && bodyRead <= wireLen == Value(hdrBuf[..headerRead]) && TAG <= wireLen <= MAX_WIRE
      modifies this, rawBuf, p, source, stream
      ensures Shaped() && Roomy() && (rawBuf == old(rawBuf) || fresh(rawBuf))
      ensures var f := N.ReadFull(old(source.events), wireLen - old(bodyRead));
        var o := R.Finish(stream.cipher, old(State()), p.Length, f);
        && State() == o.r && source.events == o.rest
        && n == |o.out| <= p.Length && p[..n] == o.out && err == o.err
    {
      n := 0;
      err := FillBody(wireLen);
      if err == N.None {
        n, err := Decrypt(p, wireLen);
      }
    }
  }
}
