/** What a RawStream writer delivers: with numbers left and a connection that takes every batch whole,
    every byte is reported, flushed and read; and every error has a cause. */
module RawDelivery {
  import opened Octets
  import opened RawRecord
  import opened Downstream
  import opened RawWriter
  import N = Network
  import S = RawStream

  // ---------------------------------------------------------------- a connection that takes everything

  /** Between two records of a batch, with nothing in the way. */
  ghost predicate Clear(c: Cipher, p: Point, base: nat) { Good(c, p, base) && p.plan == [] && !p.w.closed }

  lemma FlushTakesAll(c: Cipher, w: Writer, batch: Bytes)
    requires InStep(c, w, batch)
    ensures var f := Flush(w, batch, []);
      f.err == None && f.plan == [] && f.w == w.(flushed := |w.sealed|, wire := w.wire + batch)
  {
    assert batch[..|batch|] == batch;
  }

  lemma EmitClear(c: Cipher, p: Point, payload: Bytes, base: nat)
    requires Clear(c, p, base) && |p.w.sealed| < MAX_SEQUENCE
    ensures Clear(c, Emit(c, p, payload), base)
  {
    EmitMeaning(c, p, payload, base);
    var batch := p.batch + c.Record(|p.w.sealed|, payload);
    SealMeaning(c, p.w, payload, p.batch);
    FlushTakesAll(c, Seal(p.w, payload), batch);
  }

  lemma SendClear(c: Cipher, p: Point, base: nat)
    requires Clear(c, p, base)
    ensures Clear(c, Send(p), base) && Send(p).batch == []
  {
    SendMeaning(c, p, base);
    FlushTakesAll(c, p.w, p.batch);
  }

  lemma {:induction false} PumpClear(c: Cipher, p: Point, data: Bytes, base: nat)
    requires Clear(c, p, base) && |p.w.sealed| + |Records(data, p.w.burst)| <= MAX_SEQUENCE
    ensures Clear(c, Pump(c, p, data), base) && Pump(c, p, data).batch == []
    decreases |data|
  {
    if data == [] {
      SendClear(c, p, base);
    } else {
      var n := Cut(data, p.w.burst);
      EmitClear(c, p, data[..n], base);
      EmitSeals(c, p, data[..n]);
      PumpClear(c, Emit(c, p, data[..n]), data[n..], base);
    }
  }

  /** The burst a batch starts with. */
  function BurstAt(w: Writer, now: int): nat {
    if w.last.At? && now - w.last.nanos > 1_000_000_000 then 0 else w.burst
  }

  lemma PumpDelivers(c: Cipher, p: Point, data: Bytes, base: nat)
    requires Clear(c, p, base) && |p.w.sealed| + |Records(data, p.w.burst)| <= MAX_SEQUENCE
    ensures var q := Pump(c, p, data);
      && q.err == None && q.plan == [] && !q.w.closed && q.w.sealed == p.w.sealed + Records(data, p.w.burst)
      && q.w.flushed == |q.w.sealed| && q.w.wire == Wire(c, q.w.sealed) && base + q.total == |Flat(q.w.sealed)|
  {
    var q := Pump(c, p, data);
    PumpClear(c, p, data, base);
    PumpSeals(c, p, data);
    assert q.w.sealed == p.w.sealed + q.w.sealed[|p.w.sealed|..];
    assert q.w.sealed[..|q.w.sealed|] == q.w.sealed;
    assert q.w.wire + [] == q.w.wire;
  }

  /** An open writer over a connection that takes everything, with numbers left for the records: the whole
      batch is reported and flushed, the writer stays open, and the wire gains exactly its records. */
  lemma BatchDelivers(c: Cipher, w: Writer, data: Bytes, now: int)
    requires Idle(c, w) && !w.closed && w.flushed == |w.sealed|
    requires |w.sealed| + |Records(data, BurstAt(w, now))| <= MAX_SEQUENCE
    ensures var r := WriteBatch(c, w, data, now, []);
      && r.err == None && r.n == |data| && r.plan == [] && !r.w.closed
      && r.w.sealed == w.sealed + Records(data, BurstAt(w, now))
      && r.w.flushed == |r.w.sealed| && r.w.wire == Wire(c, r.w.sealed)
  {
    var p := Point(Burst(w, now), [], 0, 0, [], None);
    IdleIsInStep(c, w);
    PumpDelivers(c, p, data, Counted(w));
    FlatConcat(w.sealed, Records(data, p.w.burst));
    RecordsCover(data, p.w.burst);
  }

  lemma IdleIsInStep(c: Cipher, w: Writer)
    requires Idle(c, w) && w.flushed == |w.sealed|
    ensures InStep(c, w, []) && Counted(w) == |Flat(w.sealed)|
  {
    assert w.sealed[..|w.sealed|] == w.sealed;
    assert w.wire + [] == w.wire;
  }

  lemma EofDelivers(c: Cipher, w: Writer)
    requires Idle(c, w) && !w.closed && w.flushed == |w.sealed| < MAX_SEQUENCE
    ensures var r := WriteEOF(c, w, []);
      && r.err == None && r.plan == [] && r.w.closed && r.w.sealed == w.sealed + [[]]
      && r.w.flushed == |r.w.sealed| && r.w.wire == Wire(c, r.w.sealed)
  {
    IdleIsInStep(c, w);
    var record := c.Record(|w.sealed|, []);
    assert [] + record == record;
    SealMeaning(c, w.(closed := true), [], []);
    FlushTakesAll(c, Seal(w, []).(closed := true), record);
  }

  // ---------------------------------------------------------------- whole runs

  predicate HasEof(calls: seq<Call>) { exists i :: 0 <= i < |calls| && calls[i].Eof? }

  lemma {:induction false} FilledLength(log: Log)
    requires Filled(log)
    ensures |log| <= |Flat(log)|
  {
    if log != [] {
      forall i | 0 <= i < |log[1..]| ensures 0 < |log[1..][i]| <= MAX_PAYLOAD {
        assert log[1..][i] == log[i + 1];
      }
      FilledLength(log[1..]);
      assert 0 < |log[0]|;
    }
  }

  lemma BatchFits(w: Writer, data: Bytes, burst: nat)
    requires Filled(w.sealed)
    ensures |w.sealed| + |Records(data, burst)| <= |Flat(w.sealed)| + |data|
  {
    FilledLength(w.sealed);
    RecordsFilled(data, burst);
    FilledLength(Records(data, burst));
    RecordsCover(data, burst);
  }

  /** Everything handed over so far is on the wire, and the stream is ended if the calls end it. */
  ghost predicate Delivered(c: Cipher, calls: seq<Call>, r: Result) {
    && r.plan == [] && r.w.flushed == |r.w.sealed| && r.w.wire == Wire(c, r.w.sealed)
    && (r.w.closed <==> HasEof(calls)) && (r.w.closed <==> S.EndsEmpty(r.w.sealed))
    && (!r.w.closed ==> Filled(r.w.sealed) && Flat(r.w.sealed) == Handed(calls) && r.n == |Handed(calls)|)
  }

  lemma {:induction false} RunDelivers(c: Cipher, calls: seq<Call>)
    requires |Handed(calls)| < MAX_SEQUENCE
    ensures Delivered(c, calls, Run(c, Fresh, calls, []))
  {
    if calls != [] {
      var n := |calls| - 1;
      RunDelivers(c, calls[..n]);
      RunMeaning(c, calls[..n], []);
      var before := Run(c, Fresh, calls[..n], []);
      StepDelivers(c, calls, before);
    }
  }

  lemma HasEofMore(calls: seq<Call>)
    requires calls != []
    ensures HasEof(calls) <==> HasEof(calls[..|calls| - 1]) || calls[|calls| - 1].Eof?
  {
    var front := calls[..|calls| - 1];
    assert forall i | 0 <= i < |front| :: front[i] == calls[i];
    if HasEof(front) {
      var i :| 0 <= i < |front| && front[i].Eof?;
      assert calls[i].Eof?;
    }
  }

  lemma StepDelivers(c: Cipher, calls: seq<Call>, before: Result)
    requires calls != [] && |Handed(calls)| < MAX_SEQUENCE
    requires Delivered(c, calls[..|calls| - 1], before) && Idle(c, before.w)
    ensures var r := Step(c, before.w, calls[|calls| - 1], before.plan);
      Delivered(c, calls, r.(n := before.n + r.n))
  {
    HasEofMore(calls);
    if before.w.closed {
      ClosedStepDelivers(c, calls, before);
    } else if calls[|calls| - 1].Eof? {
      FilledLength(before.w.sealed);
      EofStepDelivers(c, calls, before);
    } else {
      BatchStepDelivers(c, calls, before);
    }
  }

  lemma ClosedStepDelivers(c: Cipher, calls: seq<Call>, before: Result)
    requires calls != [] && before.w.closed && HasEof(calls)
    requires Delivered(c, calls[..|calls| - 1], before)
    ensures var r := Step(c, before.w, calls[|calls| - 1], before.plan);
      Delivered(c, calls, r.(n := before.n + r.n))
  {
  }

  lemma EofStepDelivers(c: Cipher, calls: seq<Call>, before: Result)
    requires calls != [] && HasEof(calls) && calls[|calls| - 1].Eof? && !before.w.closed
    requires Delivered(c, calls[..|calls| - 1], before) && Idle(c, before.w) && |before.w.sealed| < MAX_SEQUENCE
    ensures var r := Step(c, before.w, calls[|calls| - 1], before.plan);
      Delivered(c, calls, r.(n := before.n + r.n))
  {
    EofDelivers(c, before.w);
  }

  lemma BatchStepDelivers(c: Cipher, calls: seq<Call>, before: Result)
    requires calls != [] && |Handed(calls)| < MAX_SEQUENCE && calls[|calls| - 1].Batch?
    requires !before.w.closed && (HasEof(calls) <==> HasEof(calls[..|calls| - 1]))
    requires Delivered(c, calls[..|calls| - 1], before) && Idle(c, before.w)
    ensures var r := Step(c, before.w, calls[|calls| - 1], before.plan);
      Delivered(c, calls, r.(n := before.n + r.n))
  {
    var w, call := before.w, calls[|calls| - 1];
    var data, burst := Flat(call.slices), BurstAt(w, call.now);
    BatchFits(w, data, burst);
    BatchDelivers(c, w, data, call.now);
    var sealed := w.sealed + Records(data, burst);
    assert sealed[|w.sealed|..] == Records(data, burst);
    BatchHolds(w, sealed, data, burst, Handed(calls[..|calls| - 1]));
    FilledHasNoEnd(sealed);
  }

  lemma FilledHasNoEnd(log: Log)
    requires Filled(log)
    ensures !S.EndsEmpty(log)
  {
    if log != [] {
      assert 0 < |log[|log| - 1]|;
    }
  }

  /** Over a connection that takes everything, and a network that carries it unchanged, the reader gets
      everything handed over, or everything handed over before the call that ended the stream, and then
      the end. */
  lemma RoundTripWhole(c: Cipher, calls: seq<Call>, wants: seq<nat>, events: seq<N.Event>)
    requires |Handed(calls)| < MAX_SEQUENCE && Opens(c, S.SealedBy(c, calls, []))
    requires N.Gentle(events) && N.Arrived(events) == Run(c, Fresh, calls, []).w.wire
    requires |wants| >= |events| && forall i | 0 <= i < |wants| :: wants[i] > 0
    ensures !HasEof(calls) ==> S.ReadBy(c, wants, events).out == Handed(calls)
    ensures HasEof(calls) ==>
      && S.ReadBy(c, wants, events).r.ended
      && exists k: nat :: k < |calls| && calls[k].Eof? && S.ReadBy(c, wants, events).out == Handed(calls[..k])
  {
    RunDelivers(c, calls);
    S.RoundTrip(c, calls, [], wants, events);
    if HasEof(calls) {
      var w := Run(c, Fresh, calls, []).w;
      var k: nat :| S.EndsAt(calls, k, w.sealed) && S.ReadBy(c, wants, events).out == Handed(calls[..k]);
    }
  }

  // ---------------------------------------------------------------- every error has a cause

  /** The answers a call consumed are `plan` without `rest`; an error of the connection is the last one's:
      it was not ok, or was not the whole of the records sealed and not flushed. */
  ghost predicate Blamed(c: Cipher, w: Writer, plan: seq<Took>, rest: seq<Took>, err: Error) {
    && |rest| <= |plan| && rest == plan[|plan| - |rest|..] && w.flushed <= |w.sealed|
    && var k := |plan| - |rest|;
      && (err == SinkFailed ==> k > 0 && !plan[k - 1].ok)
      && (err == ShortWrite ==>
            k > 0 && plan[k - 1].ok && plan[k - 1].n != |Wire(c, w.sealed)| - |Wire(c, w.sealed[..w.flushed])|)
  }

  lemma FlushBlames(c: Cipher, w: Writer, batch: Bytes, plan: seq<Took>)
    requires InStep(c, w, batch)
    ensures var f := Flush(w, batch, plan); Blamed(c, f.w, plan, f.plan, f.err)
    ensures Flush(w, batch, plan).err in {None, SinkFailed, ShortWrite}
  {
  }

  lemma EmitBlames(c: Cipher, p: Point, payload: Bytes, base: nat)
    requires Good(c, p, base)
    ensures var q := Emit(c, p, payload);
      && Blamed(c, q.w, p.plan, q.plan, q.err) && q.err != ClosedPipe
      && (q.err == SequenceExhausted <==> |p.w.sealed| >= MAX_SEQUENCE)
  {
    if |p.w.sealed| < MAX_SEQUENCE {
      var batch := p.batch + c.Record(|p.w.sealed|, payload);
      SealMeaning(c, p.w, payload, p.batch);
      FlushBlames(c, Seal(p.w, payload), batch, p.plan);
    }
  }

  lemma BlamedLater(c: Cipher, w: Writer, plan: seq<Took>, mid: seq<Took>, rest: seq<Took>, err: Error)
    requires |mid| <= |plan| && mid == plan[|plan| - |mid|..] && Blamed(c, w, mid, rest, err)
    ensures Blamed(c, w, plan, rest, err)
  {
    assert rest == plan[|plan| - |rest|..];
    if |rest| < |mid| {
      assert mid[|mid| - |rest| - 1] == plan[|plan| - |rest| - 1];
    }
  }

  lemma {:induction false} PumpBlames(c: Cipher, p: Point, data: Bytes, base: nat)
    requires Good(c, p, base)
    ensures var q := Pump(c, p, data); Blamed(c, q.w, p.plan, q.plan, q.err) && q.err != ClosedPipe
    decreases |data|
  {
    if data == [] {
      FlushBlames(c, p.w, p.batch, p.plan);
    } else {
      var n := Cut(data, p.w.burst);
      var q, end := Emit(c, p, data[..n]), Pump(c, p, data);
      EmitBlames(c, p, data[..n], base);
      if q.err == None {
        EmitMeaning(c, p, data[..n], base);
        PumpBlames(c, q, data[n..], base);
        BlamedLater(c, end.w, p.plan, q.plan, end.plan, end.err);
      }
    }
  }

  lemma {:induction false} PumpExhausts(c: Cipher, p: Point, data: Bytes)
    requires p.err == None && Pump(c, p, data).err == SequenceExhausted
    ensures |p.w.sealed| + |Records(data, p.w.burst)| > MAX_SEQUENCE
    decreases |data|
  {
    if data != [] && |p.w.sealed| < MAX_SEQUENCE {
      var n := Cut(data, p.w.burst);
      EmitSeals(c, p, data[..n]);
      PumpExhausts(c, Emit(c, p, data[..n]), data[n..]);
    }
  }

  /** A batch fails only on a closed writer, for want of numbers for its records, or because the connection
      failed or took a batch in part. */
  lemma BatchErrorHasACause(c: Cipher, w: Writer, data: Bytes, now: int, plan: seq<Took>)
    requires Idle(c, w) && (w.closed || w.flushed == |w.sealed|)
    ensures var r := WriteBatch(c, w, data, now, plan);
      && (r.err == ClosedPipe <==> w.closed)
      && (r.err == SequenceExhausted ==> |w.sealed| + |Records(data, BurstAt(w, now))| > MAX_SEQUENCE)
      && Blamed(c, r.w, plan, r.plan, r.err)
  {
    if !w.closed {
      IdleIsInStep(c, w);
      var p := Point(Burst(w, now), [], 0, 0, plan, None);
      PumpBlames(c, p, data, Counted(w));
      if Pump(c, p, data).err == SequenceExhausted {
        PumpExhausts(c, p, data);
      }
    }
  }

  /** So does the end marker, which a closed writer does not send again. */
  lemma EofErrorHasACause(c: Cipher, w: Writer, plan: seq<Took>)
    requires Idle(c, w) && (w.closed || w.flushed == |w.sealed|)
    ensures var r := WriteEOF(c, w, plan);
      && r.err != ClosedPipe && (r.err == SequenceExhausted <==> !w.closed && |w.sealed| == MAX_SEQUENCE)
      && Blamed(c, r.w, plan, r.plan, r.err)
  {
    if !w.closed && |w.sealed| < MAX_SEQUENCE {
      IdleIsInStep(c, w);
      var record := c.Record(|w.sealed|, []);
      assert [] + record == record;
      SealMeaning(c, w.(closed := true), [], []);
      FlushBlames(c, Seal(w, []).(closed := true), record, plan);
    }
  }

  // ---------------------------------------------------------------- sizes and delays

  /** The largest record after `burst` bytes. */
  function SizeAt(burst: nat): nat {
    if burst < 131_072 then 1380 else if burst < 1_048_576 then 8192 else 32_768
  }

  /** Each record is as large as its place in the burst allows. */
  lemma {:induction false} RecordSize(data: Bytes, burst: nat, i: nat)
    requires i < |Records(data, burst)|
    ensures var at := |Flat(Records(data, burst)[..i])|;
      at < |data| && |Records(data, burst)[i]| == Min(|data| - at, SizeAt(burst + at))
    decreases i
  {
    var n := Cut(data, burst);
    var rest := Records(data[n..], burst + n);
    if i > 0 {
      RecordSize(data[n..], burst + n, i - 1);
      assert Records(data, burst)[..i] == [data[..n]] + rest[..i - 1];
      assert ([data[..n]] + rest[..i - 1])[1..] == rest[..i - 1];
    }
  }

  /** A record is sent at once in the first 128 KiB of a burst, and later when 8 KiB, or after 1 MiB
      128 KiB, have gathered. */
  lemma SentWhenDue(c: Cipher, p: Point, payload: Bytes)
    requires p.err == None && Emit(c, p, payload).err == None
    ensures var q, gathered := Emit(c, p, payload), p.batch + c.Record(|p.w.sealed|, payload);
      if p.w.burst < 131_072 || |gathered| >= (if p.w.burst < 1_048_576 then 8192 else 131_072)
      then q.batch == [] && q.w.flushed == |q.w.sealed| && q.total == p.total + p.pending + |payload|
      else q.batch == gathered && q.w.flushed == p.w.flushed && q.total == p.total
  {
  }
}
