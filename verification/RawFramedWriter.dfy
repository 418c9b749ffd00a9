/** AEADStream and FramedWriter as they run: sequence numbers advance in place, slices are walked by
    index and offset, short slices are coalesced in a reused buffer, and a failed downstream Write
    closes the writer.  Each method is proved to do what the reference of `RawWriter` does. */
module RawFramedWriter {
  import opened Octets
  import opened RawRecord
  import opened Downstream
  import W = RawWriter

  datatype ChunkError = Fine | TooLarge | Exhausted

  class AEADStream {
    const cipher: Cipher
    var sequence: nat

    constructor (cipher: Cipher)
      ensures this.cipher == cipher && sequence == 0
    {
      this.cipher := cipher;
      sequence := 0;
    }

    method EncryptChunk(dst: Bytes, plaintext: Bytes) returns (r: Bytes, err: ChunkError)
      modifies this
      ensures err ==
        if |plaintext| > MAX_PAYLOAD then TooLarge else if old(sequence) == MAX_SEQUENCE then Exhausted else Fine
      ensures err == Fine ==> r == dst + cipher.Record(old(sequence), plaintext) && sequence == old(sequence) + 1
      ensures err != Fine ==> r == [] && sequence == old(sequence)
    {
      if |plaintext| > MAX_PAYLOAD {
        return [], TooLarge;
      }
      if sequence == MAX_SEQUENCE {
        return [], Exhausted;
      }
      var nonce := [0, 0, 0, 0] + BigEndian(sequence, 8);
      sequence := sequence + 1;
      var length := BigEndian(|plaintext| + TAG, 2);
      r, err := dst + length, Fine;
      r := r + cipher.seal(nonce, plaintext, length);
      assert r == dst + (length + cipher.seal(nonce, plaintext, length));
    }

    method DecryptChunk(ciphertext: Bytes, wireLen: nat) returns (r: Opened)
      modifies this
      ensures r == if old(sequence) == MAX_SEQUENCE then Rejected
                   else cipher.open(Nonce(old(sequence)), ciphertext, BigEndian(wireLen, 2))
      ensures sequence == if old(sequence) == MAX_SEQUENCE then old(sequence) else old(sequence) + 1
    {
      if sequence == MAX_SEQUENCE {
        return Rejected;
      }
      var nonce := [0, 0, 0, 0] + BigEndian(sequence, 8);
      sequence := sequence + 1;
      r := cipher.open(nonce, ciphertext, BigEndian(wireLen, 2));
    }
  }

  /** Where slice `index` starts in the concatenation of all slices. */
  function Start(slices: seq<Bytes>, index: nat): nat
    requires index <= |slices|
  {
    if index == 0 then 0 else Start(slices, index - 1) + |slices[index - 1]|
  }

  /** A position in the slices, as a position in their concatenation. */
  predicate At(slices: seq<Bytes>, index: nat, offset: nat, pos: nat) {
    && index <= |slices|
    && (index < |slices| ==> offset <= |slices[index]|)
    && (index == |slices| ==> offset == 0)
    && pos == Start(slices, index) + offset
  }

  lemma {:induction false} StartIsLength(slices: seq<Bytes>, index: nat)
    requires index <= |slices|
    ensures Start(slices, index) == |Flat(slices[..index])|
  {
    if index > 0 {
      StartIsLength(slices, index - 1);
      assert slices[..index] == slices[..index - 1] + [slices[index - 1]];
      FlatPush(slices[..index - 1], slices[index - 1]);
    }
  }

  /** `part` stands at `pos` in `data`. */
  ghost predicate Stands(part: Bytes, data: Bytes, pos: nat) {
    pos + |part| <= |data| && forall k | 0 <= k < |part| :: part[k] == data[pos + k]
  }

  lemma {:induction false} StandsInFlat(slices: seq<Bytes>, index: nat)
    requires index < |slices|
    ensures Stands(slices[index], Flat(slices), Start(slices, index))
  {
    var front, back := slices[..index], slices[index..];
    StartIsLength(slices, index);
    FlatConcat(front, back);
    assert front + back == slices;
    StandsInMiddle(Flat(front), back[0], Flat(back[1..]));
  }

  lemma StandsInMiddle(a: Bytes, b: Bytes, c: Bytes)
    ensures Stands(b, a + (b + c), |a|)
  {
  }

  lemma EndIsLength(slices: seq<Bytes>)
    ensures Start(slices, |slices|) == |Flat(slices)|
  {
    StartIsLength(slices, |slices|);
    assert slices[..|slices|] == slices;
  }

  lemma PartStands(part: Bytes, data: Bytes, pos: nat, offset: nat, n: nat)
    requires Stands(part, data, pos) && offset + n <= |part|
    ensures Stands(part[offset..offset + n], data, pos + offset)
  {
    var sub := part[offset..offset + n];
    forall k | 0 <= k < |sub| ensures sub[k] == data[pos + offset + k] {
      assert sub[k] == part[offset + k];
    }
  }

  lemma StandTogether(a: Bytes, b: Bytes, data: Bytes, pos: nat)
    requires Stands(a, data, pos) && Stands(b, data, pos + |a|)
    ensures Stands(a + b, data, pos)
  {
  }

  /** Taking `n` more bytes of the current slice continues what was taken so far. */
  lemma TakeMore(slices: seq<Bytes>, data: Bytes, index: nat, offset: nat, n: nat, taken: Bytes, pos: nat)
    requires data == Flat(slices) && At(slices, index, offset, pos + |taken|) && Stands(taken, data, pos)
    requires index < |slices| && offset + n <= |slices[index]|
    ensures Stands(taken + slices[index][offset..offset + n], data, pos)
    ensures At(slices, index, offset + n, pos + |taken| + n)
    ensures offset + n == |slices[index]| ==> At(slices, index + 1, 0, pos + |taken| + n)
  {
    StandsInFlat(slices, index);
    PartStands(slices[index], data, Start(slices, index), offset, n);
    StandTogether(taken, slices[index][offset..offset + n], data, pos);
  }

  lemma StandsIsSlice(part: Bytes, data: Bytes, pos: nat)
    requires Stands(part, data, pos)
    ensures data[pos..][..|part|] == part && data[pos..][|part|..] == data[pos + |part|..]
  {
    assert |data[pos..][..|part|]| == |part|;
  }

  /** The reference, one record further. */
  lemma PumpRound(c: Cipher, p: W.Point, data: Bytes, pos: nat, chunk: Bytes)
    requires Stands(chunk, data, pos) && chunk != [] && |chunk| == Min(|data| - pos, W.Limit(p.w.burst))
    ensures var q := W.Emit(c, p, chunk);
      W.Pump(c, p, data[pos..]) == if q.err == W.None then W.Pump(c, q, data[pos + |chunk|..]) else q
  {
    StandsIsSlice(chunk, data, pos);
    assert W.Cut(data[pos..], p.w.burst) == |chunk|;
  }

  class FramedWriter {
    const sink: Sink
    const stream: AEADStream
    var buf: Bytes
    var plain: Bytes
    var burstBytes: nat
    var lastWrite: W.Time
    var closed: bool
    ghost var sealed: Log
    ghost var flushed: nat

    ghost predicate Valid()
      reads this, stream
    {
      stream.sequence == |sealed| <= MAX_SEQUENCE && flushed <= |sealed|
    }

    ghost function State(): W.Writer
      reads this, sink
    {
      W.Writer(sealed, flushed, sink.wire, closed, burstBytes, lastWrite)
    }

    constructor (sink: Sink, stream: AEADStream)
      requires stream.sequence == 0 && sink.wire == []
      ensures this.sink == sink && this.stream == stream
      ensures Valid() && State() == W.Fresh
    {
      this.sink, this.stream := sink, stream;
      buf, plain, burstBytes, lastWrite, closed := [], [], 0, W.Never, false;
      sealed, flushed := [], 0;
    }

    method Flush() returns (err: W.Error)
      requires Valid()
      modifies this`closed, this`flushed, sink
      ensures Valid()
      ensures var f := W.Flush(old(State()), buf, old(sink.plan));
        State() == f.w && sink.plan == f.plan && err == f.err
      // it succeeds exactly when the sink took the whole buffer
      ensures var t := if old(sink.plan) == [] then Took(|buf|, true) else old(sink.plan)[0];
        && (err == W.None <==> t.ok && t.n == |buf|) && (err == W.SinkFailed <==> !t.ok)
        && closed == (old(closed) || err != W.None) && flushed == (if err == W.None then |sealed| else old(flushed))
    {
      var t := sink.Write(buf);
      err := if t.ok then W.None else W.SinkFailed;
      if err == W.None && t.n != |buf| {
        err := W.ShortWrite;
      }
      if err != W.None {
        closed := true;
      } else {
        flushed := |sealed|;
      }
    }

    /** Appends to `plain` what fits of the current slice. */
    method TakePart(slices: seq<Bytes>, index: nat, offset: nat, limit: nat, ghost data: Bytes, ghost pos: nat)
      returns (index': nat, offset': nat)
      requires data == Flat(slices) && At(slices, index, offset, pos + |plain|) && Stands(plain, data, pos)
      requires index < |slices| && |plain| < limit
      modifies this`plain
      ensures |plain| == Min(old(|plain|) + |slices[index]| - offset, limit)
      ensures Stands(plain, data, pos) && At(slices, index', offset', pos + |plain|)
      ensures index' == if |plain| == old(|plain|) + |slices[index]| - offset then index + 1 else index
    {
      var n := Min(|slices[index]| - offset, limit - |plain|);
      TakeMore(slices, data, index, offset, n, plain, pos);
      plain := plain + slices[index][offset..offset + n];
      index', offset' := index, offset + n;
      if offset' == |slices[index]| {
        index', offset' := index + 1, 0;
      }
    }

    /** Fills `plain` from this and the following slices, up to `limit` bytes. */
    method Coalesce(slices: seq<Bytes>, index: nat, offset: nat, limit: nat, ghost data: Bytes, ghost pos: nat)
      returns (index': nat, offset': nat)
      requires data == Flat(slices) && At(slices, index, offset, pos) && pos <= |data|
      requires index < |slices| && offset < |slices[index]| && |slices[index]| - offset < limit
      modifies this`plain
      ensures index < index'
      ensures Stands(plain, data, pos) && At(slices, index', offset', pos + |plain|)
      ensures |plain| == Min(|data| - pos, limit)
    {
      index', offset' := index, offset;
      plain := [];
      EndIsLength(slices);
      while |plain| < limit && index' < |slices|
        invariant |plain| <= limit
        invariant At(slices, index', offset', pos + |plain|)
        invariant Stands(plain, data, pos)
        invariant index <= index'
        invariant index' == index ==> offset' == offset && plain == []
        decreases |slices| - index', limit - |plain|
      {
        index', offset' := TakePart(slices, index', offset', limit, data, pos);
      }
    }

    /** Cuts the next record, at most `limit` bytes: from the current slice alone, or by coalescing
        slices of this batch. */
    method NextChunk(slices: seq<Bytes>, index: nat, offset: nat, limit: nat, ghost data: Bytes, ghost pos: nat)
      returns (chunk: Bytes, index': nat, offset': nat)
      requires data == Flat(slices) && At(slices, index, offset, pos) && pos <= |data|
      requires index < |slices| && offset < |slices[index]| && 0 < limit
      modifies this`plain
      ensures index <= index' && chunk != []
      ensures index' == index ==> offset < offset'
      ensures Stands(chunk, data, pos) && At(slices, index', offset', pos + |chunk|)
      ensures |chunk| == Min(|data| - pos, limit)
    {
      StandsInFlat(slices, index);
      if |slices[index]| - offset < limit && index + 1 < |slices| {
        index', offset' := Coalesce(slices, index, offset, limit, data, pos);
        chunk := plain;
      } else {
        var n := Min(|slices[index]| - offset, limit);
        PartStands(slices[index], data, Start(slices, index), offset, n);
        EndIsLength(slices);
        chunk := slices[index][offset..offset + n];
        index', offset' := index, offset + n;
      }
    }

    /** Seals one record into `buf` and sends the batch when it has reached the threshold. */
    method Put(chunk: Bytes, threshold: nat, unflushed: nat, total: nat)
        returns (unflushed': nat, total': nat, err: W.Error)
      requires Valid() && |chunk| <= MAX_PAYLOAD && threshold == W.FlushAt(burstBytes)
      modifies this`buf, this`sealed, this`burstBytes, this`closed, this`flushed, sink, stream
      ensures Valid()
      ensures var p := W.Point(old(State()), old(buf), unflushed, total, old(sink.plan), W.None);
              var q := W.Emit(stream.cipher, p, chunk);
        && q.w == State() && q.plan == sink.plan && q.err == err && q.total == total'
        && (err == W.None ==> q.batch == buf && q.pending == unflushed')
    {
      var failed;
      unflushed', total' := unflushed, total;
      buf, failed := stream.EncryptChunk(buf, chunk);
      if failed == Exhausted {
        return unflushed, total, W.SequenceExhausted;
      }
      sealed := sealed + [chunk];
      unflushed' := unflushed + |chunk|;
      burstBytes := burstBytes + |chunk|;
      err := W.None;
      if threshold == 0 || |buf| >= threshold {
        err := Flush();
        if err == W.None {
          total', unflushed' := total + unflushed', 0;
          buf := [];
        }
      }
    }

    /** One round of the batch loop: skips a finished slice or writes one record. */
    method Round(slices: seq<Bytes>, index: nat, offset: nat, unflushed: nat, total: nat,
                 ghost data: Bytes, ghost pos: nat)
      returns (index': nat, offset': nat, unflushed': nat, total': nat, err: W.Error, ghost pos': nat)
      requires Valid() && data == Flat(slices) && At(slices, index, offset, pos) && index < |slices| && pos <= |data|
      modifies this`buf, this`plain, this`sealed, this`burstBytes, this`closed, this`flushed, sink, stream
      ensures Valid() && At(slices, index', offset', pos') && pos' <= |data|
      ensures index <= index' && (index' == index ==> offset < offset')
      ensures var p := W.Point(old(State()), old(buf), unflushed, total, old(sink.plan), W.None);
        var q := W.Pump(stream.cipher, p, data[pos..]);
        if err == W.None
          then q == W.Pump(stream.cipher, W.Point(State(), buf, unflushed', total', sink.plan, W.None), data[pos'..])
          else q.w == State() && q.plan == sink.plan && q.err == err && q.total == total'
    {
      if offset == |slices[index]| {
        return index + 1, 0, unflushed, total, W.None, pos;
      }
      var limit, threshold := W.Limit(burstBytes), W.FlushAt(burstBytes);
      var chunk;
      chunk, index', offset' := NextChunk(slices, index, offset, limit, data, pos);
      PumpRound(stream.cipher, W.Point(State(), buf, unflushed, total, sink.plan, W.None), data, pos, chunk);
      unflushed', total', err := Put(chunk, threshold, unflushed, total);
      pos' := pos + |chunk|;
    }

    method WriteBatch(slices: seq<Bytes>, now: int) returns (n: nat, err: W.Error)
      requires Valid()
      modifies this, sink, stream
      ensures Valid()
      ensures var r := W.WriteBatch(stream.cipher, old(State()), Flat(slices), now, old(sink.plan));
        State() == r.w && sink.plan == r.plan && n == r.n && err == r.err
    {
      if closed {
        return 0, W.ClosedPipe;
      }
      if lastWrite.At? && now - lastWrite.nanos > W.IDLE_RESET {
        burstBytes := 0;
      }
      lastWrite := W.At(now);
      n, err := WriteSlices(slices, Flat(slices));
    }

    method WriteSlices(slices: seq<Bytes>, ghost data: Bytes) returns (total: nat, err: W.Error)
      requires Valid() && data == Flat(slices)
      modifies this`buf, this`plain, this`sealed, this`burstBytes, this`closed, this`flushed, sink, stream
      ensures Valid()
      ensures var q := W.Pump(stream.cipher, W.Point(old(State()), [], 0, 0, old(sink.plan), W.None), data);
        State() == q.w && sink.plan == q.plan && total == q.total && err == q.err
    {
      buf := [];
      total, err := 0, W.None;
      var unflushed: nat, index: nat, offset: nat := 0, 0, 0;
      ghost var pos: nat := 0;
      ghost var goal := W.Pump(stream.cipher, W.Point(State(), [], 0, 0, sink.plan, W.None), data);
      assert data[0..] == data;
      EndIsLength(slices);
      while index < |slices|
        invariant Valid() && err == W.None && At(slices, index, offset, pos) && pos <= |data|
        invariant W.Pump(stream.cipher, W.Point(State(), buf, unflushed, total, sink.plan, W.None), data[pos..]) == goal
        decreases |slices| - index, if index < |slices| then |slices[index]| - offset else 0
      {
        index, offset, unflushed, total, err, pos := Round(slices, index, offset, unflushed, total, data, pos);
        if err != W.None {
          return;
        }
      }
      assert data[pos..] == [];
      if |buf| > 0 {
        err := Flush();
        if err == W.None {
          total, unflushed := total + unflushed, 0;
          buf := [];
        }
      }
    }

    method WriteEOF() returns (err: W.Error)
      requires Valid()
      modifies this, sink, stream
      ensures Valid()
      ensures var r := W.WriteEOF(stream.cipher, old(State()), old(sink.plan));
        State() == r.w && sink.plan == r.plan && err == r.err
    {
      if closed {
        return W.None;
      }
      closed := true;
      var failed;
      buf, failed := stream.EncryptChunk([], []);
      if failed == Exhausted {
        return W.SequenceExhausted;
      }
      sealed := sealed + [[]];
      assert buf == stream.cipher.Record(|sealed| - 1, []);
      err := Flush();
    }
  }
}
