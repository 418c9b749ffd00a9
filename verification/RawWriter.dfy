/** FramedWriter of internal/rawstream/stream.go.

    The reference `Pump` works on one flat byte string and keeps whole logs; the class works on the
    caller's slices with an index and an offset, coalesces them, and reuses its buffers.  The class is
    proved to do what `Pump` does on the concatenated slices, so the way a batch is sliced never shows
    on the wire.  What every run of calls seals, sends and reports is then proved about `Pump`. */
module RawWriter {
  import opened Octets
  import opened RawRecord
  import opened Downstream

  const MIN_RECORD := 1380
  const MID_RECORD := 8192
  const MAX_BATCH := 128 * 1024
  const PHASE1 := 128 * 1024
  const PHASE2 := 1024 * 1024
  const IDLE_RESET := 1_000_000_000

  datatype Error = None | ClosedPipe | ShortWrite | SinkFailed | SequenceExhausted

  datatype Time = Never | At(nanos: int)

  // ---------------------------------------------------------------- record sizes

  function Limit(burst: nat): (n: nat)
    ensures 0 < n <= MAX_PAYLOAD
  {
    if burst < PHASE1 then MIN_RECORD else if burst < PHASE2 then MID_RECORD else MAX_PAYLOAD
  }

  function FlushAt(burst: nat): nat {
    if burst < PHASE1 then 0 else if burst < PHASE2 then MID_RECORD else MAX_BATCH
  }

  /** The size of the next record. */
  function Cut(data: Bytes, burst: nat): (n: nat)
    ensures n <= |data| && n <= MAX_PAYLOAD
    ensures data != [] ==> 0 < n
  {
    Min(|data|, Limit(burst))
  }

  /** The records one batch is cut into, from its flat contents and the burst so far. */
  function Records(data: Bytes, burst: nat): Log
    decreases |data|
  {
    if data == [] then []
    else
      var n := Cut(data, burst);
      [data[..n]] + Records(data[n..], burst + n)
  }

  ghost predicate Filled(log: Log) {
    forall i | 0 <= i < |log| :: 0 < |log[i]| <= MAX_PAYLOAD
  }

  lemma {:induction false} RecordsCover(data: Bytes, burst: nat)
    ensures Flat(Records(data, burst)) == data
    decreases |data|
  {
    if data != [] {
      var n := Cut(data, burst);
      var rest := Records(data[n..], burst + n);
      RecordsCover(data[n..], burst + n);
      assert ([data[..n]] + rest)[1..] == rest;
      assert data[..n] + data[n..] == data;
    }
  }

  lemma {:induction false} RecordsFilled(data: Bytes, burst: nat)
    ensures Filled(Records(data, burst))
    decreases |data|
  {
    if data != [] {
      RecordsFilled(data[Cut(data, burst)..], burst + Cut(data, burst));
    }
  }

  // ---------------------------------------------------------------- the reference writer

  /** `sealed` are the payloads sealed so far, `flushed` how many of them a successful downstream
      Write has covered, `wire` the bytes downstream took. */
  datatype Writer = Writer(sealed: Log, flushed: nat, wire: Bytes, closed: bool, burst: nat, last: Time)

  datatype Result = Result(w: Writer, n: nat, err: Error, plan: seq<Took>)

  function FlushError(batch: Bytes, t: Took): Error {
    if !t.ok then SinkFailed else if t.n != |batch| then ShortWrite else None
  }

  function Flush(w: Writer, batch: Bytes, plan: seq<Took>): Result {
    var t := Answer(batch, plan);
    var err := FlushError(batch, t);
    var sent := w.(wire := w.wire + batch[..Min(t.n, |batch|)]);
    if err == None then Result(sent.(flushed := |w.sealed|), 0, None, RestOf(plan))
    else Result(sent.(closed := true), 0, err, RestOf(plan))
  }

  function Seal(w: Writer, payload: Bytes): Writer {
    w.(sealed := w.sealed + [payload], burst := w.burst + |payload|)
  }

  /** A point of a batch: `batch` holds sealed records not yet sent, carrying `pending` payload bytes;
      `total` payload bytes were reported sent. */
  datatype Point = Point(w: Writer, batch: Bytes, pending: nat, total: nat, plan: seq<Took>, err: Error)

  function Send(p: Point): Point {
    var f := Flush(p.w, p.batch, p.plan);
    if f.err == None then Point(f.w, [], 0, p.total + p.pending, f.plan, None)
    else p.(w := f.w, plan := f.plan, err := f.err)
  }

  /** Seals one record and sends the batch when it is due. */
  function Emit(c: Cipher, p: Point, payload: Bytes): Point {
    if |p.w.sealed| >= MAX_SEQUENCE then p.(err := SequenceExhausted)
    else
      var batch := p.batch + c.Record(|p.w.sealed|, payload);
      var q := p.(w := Seal(p.w, payload), batch := batch, pending := p.pending + |payload|);
      if FlushAt(p.w.burst) == 0 || |q.batch| >= FlushAt(p.w.burst) then Send(q) else q
  }

  function Pump(c: Cipher, p: Point, data: Bytes): Point
    decreases |data|
  {
    if data == [] then if p.batch == [] then p else Send(p)
    else
      var n := Cut(data, p.w.burst);
      var q := Emit(c, p, data[..n]);
      if q.err == None then Pump(c, q, data[n..]) else q
  }

  function Burst(w: Writer, now: int): Writer {
    w.(burst := if w.last.At? && now - w.last.nanos > IDLE_RESET then 0 else w.burst, last := At(now))
  }

  function WriteBatch(c: Cipher, w: Writer, data: Bytes, now: int, plan: seq<Took>): Result {
    if w.closed then Result(w, 0, ClosedPipe, plan)
    else
      var p := Pump(c, Point(Burst(w, now), [], 0, 0, plan, None), data);
      Result(p.w, p.total, p.err, p.plan)
  }

  function WriteEOF(c: Cipher, w: Writer, plan: seq<Took>): Result {
    if w.closed then Result(w, 0, None, plan)
    else if |w.sealed| >= MAX_SEQUENCE then Result(w.(closed := true), 0, SequenceExhausted, plan)
    else Flush(Seal(w, []).(closed := true), c.Record(|w.sealed|, []), plan)
  }

  // ---------------------------------------------------------------- what a call does

  /** Downstream has all flushed records and, after a failure, possibly some bytes of the rest. */
  ghost predicate Sent(c: Cipher, w: Writer) {
    && w.flushed <= |w.sealed| <= MAX_SEQUENCE
    && Wire(c, w.sealed[..w.flushed]) <= w.wire <= Wire(c, w.sealed)
  }

  /** Downstream has exactly the flushed records, and `batch` holds the others. */
  ghost predicate InStep(c: Cipher, w: Writer, batch: Bytes) {
    && w.flushed <= |w.sealed| <= MAX_SEQUENCE
    && w.wire == Wire(c, w.sealed[..w.flushed])
    && w.wire + batch == Wire(c, w.sealed)
    && (batch == [] ==> w.flushed == |w.sealed|)
  }

  /** No record can be sealed or sent any more. */
  predicate Stopped(w: Writer) { w.closed || |w.sealed| == MAX_SEQUENCE }

  /** Between calls: either everything sealed was flushed, or nothing more will be. */
  ghost predicate Idle(c: Cipher, w: Writer) {
    && Sent(c, w)
    && (Stopped(w) || (w.flushed == |w.sealed| && w.wire == Wire(c, w.sealed)))
  }

  /** How many payload bytes successful downstream Writes have covered. */
  function Counted(w: Writer): nat
    requires w.flushed <= |w.sealed|
  {
    |Flat(w.sealed[..w.flushed])|
  }

  lemma FlushMeaning(c: Cipher, w: Writer, batch: Bytes, plan: seq<Took>)
    requires InStep(c, w, batch)
    ensures var f := Flush(w, batch, plan);
      && Sent(c, f.w)
      && (f.err == None <==> Answer(batch, plan).ok && Answer(batch, plan).n == |batch|)
      && (f.err == None ==> f.w.flushed == |w.sealed| && InStep(c, f.w, []) && f.w.closed == w.closed)
      && (f.err != None ==> f.w.closed && f.w.flushed == w.flushed)
  {
    assert w.sealed[..|w.sealed|] == w.sealed;
    var n := Min(Answer(batch, plan).n, |batch|);
    PrefixAfter(w.wire, batch[..n], batch);
    if n == |batch| {
      assert batch[..n] == batch;
      assert w.wire + batch + [] == w.wire + batch;
    }
  }

  lemma SealMeaning(c: Cipher, w: Writer, payload: Bytes, batch: Bytes)
    requires InStep(c, w, batch) && |w.sealed| < MAX_SEQUENCE
    ensures InStep(c, Seal(w, payload), batch + c.Record(|w.sealed|, payload))
  {
    var record := c.Record(|w.sealed|, payload);
    assert Seal(w, payload).sealed[..w.flushed] == w.sealed[..w.flushed];
    WirePush(c, w.sealed, payload);
    Assoc(w.wire, batch, record);
    assert |record| > 0;
  }

  /** The reported and the pending bytes are those of the flushed and the sealed records, `base`
      having been reported by earlier calls. */
  ghost predicate Tally(p: Point, base: nat) {
    && p.w.flushed <= |p.w.sealed|
    && base + p.total == Counted(p.w)
    && base + p.total + p.pending == |Flat(p.w.sealed)|
  }

  ghost predicate Good(c: Cipher, p: Point, base: nat) { p.err == None && InStep(c, p.w, p.batch) && Tally(p, base) }

  /** How a batch ends in an error. */
  ghost predicate Broken(c: Cipher, p: Point, base: nat) {
    p.err != None && Sent(c, p.w) && Stopped(p.w) && base + p.total == Counted(p.w)
  }

  lemma SendMeaning(c: Cipher, p: Point, base: nat)
    requires Good(c, p, base)
    ensures Send(p).err == None ==> Good(c, Send(p), base) && Send(p).batch == []
    ensures Send(p).err != None ==> Broken(c, Send(p), base)
  {
    FlushMeaning(c, p.w, p.batch, p.plan);
    assert p.w.sealed[..|p.w.sealed|] == p.w.sealed;
  }

  lemma EmitMeaning(c: Cipher, p: Point, payload: Bytes, base: nat)
    requires Good(c, p, base)
    ensures Emit(c, p, payload).err == None ==> Good(c, Emit(c, p, payload), base)
    ensures Emit(c, p, payload).err != None ==> Broken(c, Emit(c, p, payload), base)
  {
    if |p.w.sealed| < MAX_SEQUENCE {
      var batch := p.batch + c.Record(|p.w.sealed|, payload);
      var q := p.(w := Seal(p.w, payload), batch := batch, pending := p.pending + |payload|);
      SealMeaning(c, p.w, payload, p.batch);
      FlatPush(p.w.sealed, payload);
      assert q.w.sealed[..q.w.flushed] == p.w.sealed[..p.w.flushed];
      SendMeaning(c, q, base);
    }
  }

  /** A batch that reports no error has flushed every record; one that reports an error has stopped the
      writer; either way the count reported is exactly the payload of the records that were flushed. */
  lemma {:induction false} PumpMeaning(c: Cipher, p: Point, data: Bytes, base: nat)
    requires Good(c, p, base)
    ensures Pump(c, p, data).err == None ==> Good(c, Pump(c, p, data), base) && Pump(c, p, data).batch == []
    ensures Pump(c, p, data).err != None ==> Broken(c, Pump(c, p, data), base)
    decreases |data|
  {
    if data == [] {
      SendMeaning(c, p, base);
    } else {
      var n := Cut(data, p.w.burst);
      EmitMeaning(c, p, data[..n], base);
      if Emit(c, p, data[..n]).err == None {
        PumpMeaning(c, Emit(c, p, data[..n]), data[n..], base);
      }
    }
  }

  lemma Extend(base: Log, head: Bytes, all: Log, rest: Log)
    requires base + [head] <= all && all[|base| + 1..] <= rest
    ensures base <= all && all[|base|..] <= [head] + rest
    ensures all[|base| + 1..] == rest ==> all[|base|..] == [head] + rest
  {
    assert all[|base|] == (base + [head])[|base|];
    assert all[|base|..] == [head] + all[|base| + 1..];
    assert base == (base + [head])[..|base|];
  }

  lemma EmitSeals(c: Cipher, p: Point, payload: Bytes)
    requires |p.w.sealed| < MAX_SEQUENCE
    ensures var q := Emit(c, p, payload);
      && q.w.sealed == p.w.sealed + [payload] && q.w.burst == p.w.burst + |payload|
      && (p.err == q.err == None ==> q.w.closed == p.w.closed)
  {
  }

  /** The records a batch seals are an initial part of `Records`, and all of them when no error is
      reported. */
  lemma {:induction false} PumpSeals(c: Cipher, p: Point, data: Bytes)
    requires p.err == None
    ensures p.w.sealed <= Pump(c, p, data).w.sealed
    ensures Pump(c, p, data).w.sealed[|p.w.sealed|..] <= Records(data, p.w.burst)
    ensures Pump(c, p, data).err == None
      ==> && Pump(c, p, data).w.sealed[|p.w.sealed|..] == Records(data, p.w.burst)
          && Pump(c, p, data).w.closed == p.w.closed
    decreases |data|
  {
    if data != [] && |p.w.sealed| < MAX_SEQUENCE {
      var n := Cut(data, p.w.burst);
      var q := Emit(c, p, data[..n]);
      EmitSeals(c, p, data[..n]);
      if q.err == None {
        PumpSeals(c, q, data[n..]);
      }
      Extend(p.w.sealed, data[..n], Pump(c, p, data).w.sealed, Records(data[n..], q.w.burst));
    }
  }

  // ---------------------------------------------------------------- runs of calls

  datatype Call = Batch(slices: seq<Bytes>, now: int) | Eof

  function Step(c: Cipher, w: Writer, call: Call, plan: seq<Took>): Result {
    match call
    case Batch(slices, now) => WriteBatch(c, w, Flat(slices), now, plan)
    case Eof => WriteEOF(c, w, plan)
  }

  /** The state after `calls`, with the counts they reported added up. */
  function Run(c: Cipher, w: Writer, calls: seq<Call>, plan: seq<Took>): Result {
    if calls == [] then Result(w, 0, None, plan)
    else
      var before := Run(c, w, calls[..|calls| - 1], plan);
      var r := Step(c, before.w, calls[|calls| - 1], before.plan);
      r.(n := before.n + r.n)
  }

  function HandedBy(call: Call): Bytes {
    match call case Batch(slices, _) => Flat(slices) case Eof => []
  }

  /** Everything the callers handed over, in order. */
  function Handed(calls: seq<Call>): Bytes {
    if calls == [] then []
    else Handed(calls[..|calls| - 1]) + HandedBy(calls[|calls| - 1])
  }

  const Fresh := Writer([], 0, [], false, 0, Never)

  /** Records carry data, except that the last one may be the empty end marker of a closed writer. */
  ghost predicate Marked(w: Writer) {
    || Filled(w.sealed)
    || (w.closed && |w.sealed| > 0 && w.sealed[|w.sealed| - 1] == [] && Filled(w.sealed[..|w.sealed| - 1]))
  }

  /** What was sealed, when `handed` was handed over in all. */
  ghost predicate Holds(w: Writer, handed: Bytes) {
    && Marked(w)
    && Flat(w.sealed) <= handed
    && (!Stopped(w) ==> Flat(w.sealed) == handed)
  }

  /** What holds between calls, when `counted` was reported in all. */
  ghost predicate RunInv(c: Cipher, w: Writer, handed: Bytes, counted: nat) {
    && Idle(c, w)
    && Holds(w, handed)
    && counted == Counted(w)
  }

  lemma FilledConcat(log: Log, more: Log, all: Log)
    requires Filled(log) && Filled(all) && more <= all
    ensures Filled(log + more)
  {
    forall i | 0 <= i < |log + more| ensures 0 < |(log + more)[i]| <= MAX_PAYLOAD {
      if i >= |log| {
        assert (log + more)[i] == all[i - |log|];
      }
    }
  }

  lemma PrefixAfter(a: Bytes, b: Bytes, c: Bytes)
    requires b <= c
    ensures a + b <= a + c
  {
  }

  lemma FlatOfPart(part: Log, all: Log)
    requires part <= all
    ensures Flat(part) <= Flat(all)
  {
    assert all[..|part|] == part;
    FlatPrefix(all, |part|);
  }

  /** Appending an initial part of the records of `data` to a log of everything handed over. */
  lemma FlatGrows(log: Log, more: Log, data: Bytes, burst: nat)
    requires more <= Records(data, burst)
    ensures Flat(log + more) <= Flat(log) + data
    ensures more == Records(data, burst) ==> Flat(log + more) == Flat(log) + data
  {
    FlatConcat(log, more);
    FlatOfPart(more, Records(data, burst));
    RecordsCover(data, burst);
    PrefixAfter(Flat(log), Flat(more), data);
  }

  /** What one batch leaves behind when the writer was in step before it. */
  lemma BatchFromOpen(c: Cipher, w: Writer, data: Bytes, now: int, plan: seq<Took>, counted: nat)
    requires Idle(c, w) && !Stopped(w) && counted == Counted(w)
    ensures var r := WriteBatch(c, w, data, now, plan);
      && Idle(c, r.w)
      && (r.err != None ==> Stopped(r.w))
      && counted + r.n == Counted(r.w)
  {
    var p := Point(Burst(w, now), [], 0, 0, plan, None);
    assert w.sealed[..|w.sealed|] == w.sealed;
    assert w.wire + [] == w.wire;
    PumpMeaning(c, p, data, counted);
    var r := Pump(c, p, data).w;
    assert r.sealed[..|r.sealed|] == r.sealed;
    assert r.wire + [] == r.wire;
  }

  lemma BatchHolds(w: Writer, sealed: Log, data: Bytes, burst: nat, handed: Bytes)
    requires Filled(w.sealed) && Flat(w.sealed) == handed
    requires w.sealed <= sealed && sealed[|w.sealed|..] <= Records(data, burst)
    ensures Filled(sealed) && Flat(sealed) <= handed + data
    ensures sealed[|w.sealed|..] == Records(data, burst) ==> Flat(sealed) == handed + data
  {
    var more := sealed[|w.sealed|..];
    FlatGrows(w.sealed, more, data, burst);
    RecordsFilled(data, burst);
    FilledConcat(w.sealed, more, Records(data, burst));
    assert w.sealed + more == sealed;
  }

  lemma BatchKeeps(c: Cipher, w: Writer, data: Bytes, now: int, plan: seq<Took>, handed: Bytes, counted: nat)
    requires RunInv(c, w, handed, counted)
    ensures var r := WriteBatch(c, w, data, now, plan);
      RunInv(c, r.w, handed + data, counted + r.n)
  {
    if !Stopped(w) {
      BatchFromOpen(c, w, data, now, plan, counted);
      var p := Point(Burst(w, now), [], 0, 0, plan, None);
      PumpSeals(c, p, data);
      BatchHolds(w, Pump(c, p, data).w.sealed, data, p.w.burst, handed);
    }
  }

  lemma EofFromOpen(c: Cipher, w: Writer, plan: seq<Took>)
    requires Idle(c, w) && !Stopped(w)
    ensures Idle(c, WriteEOF(c, w, plan).w)
    ensures Counted(WriteEOF(c, w, plan).w) == Counted(w)
  {
    var open := w.(closed := true);
    var p := Point(open, [], 0, 0, plan, None);
    var record := c.Record(|w.sealed|, []);
    assert w.sealed[..|w.sealed|] == w.sealed && w.wire + [] == w.wire && [] + record == record;
    SealMeaning(c, open, [], []);
    FlatPush(w.sealed, []);
    var q := Point(Seal(open, []), record, 0, 0, plan, None);
    assert q.w.sealed[..q.w.flushed] == w.sealed;
    SendMeaning(c, q, Counted(w));
  }

  lemma EofKeeps(c: Cipher, w: Writer, plan: seq<Took>, handed: Bytes, counted: nat)
    requires RunInv(c, w, handed, counted)
    ensures RunInv(c, WriteEOF(c, w, plan).w, handed, counted)
  {
    if !Stopped(w) {
      EofFromOpen(c, w, plan);
      FlatPush(w.sealed, []);
      assert (w.sealed + [[]])[..|w.sealed|] == w.sealed;
    }
  }

  /** Over every run of calls and every behaviour downstream: the sealed payloads are an initial part
      of what was handed over, all of it while the writer is open; no record is empty except an end
      marker that nothing follows; the wire holds the flushed records whole and at most a torn part of
      the others; and the counts reported add up to the payload of the flushed records. */
  lemma {:induction false} RunMeaning(c: Cipher, calls: seq<Call>, plan: seq<Took>)
    ensures var r := Run(c, Fresh, calls, plan); RunInv(c, r.w, Handed(calls), r.n)
  {
    if calls != [] {
      var front := calls[..|calls| - 1];
      RunMeaning(c, front, plan);
      var before := Run(c, Fresh, front, plan);
      StepKeeps(c, before.w, calls[|calls| - 1], before.plan, Handed(front), before.n);
    }
  }

  lemma StepKeeps(c: Cipher, w: Writer, call: Call, plan: seq<Took>, handed: Bytes, counted: nat)
    requires RunInv(c, w, handed, counted)
    ensures var r := Step(c, w, call, plan); RunInv(c, r.w, handed + HandedBy(call), counted + r.n)
  {
    match call
    case Batch(slices, now) => BatchKeeps(c, w, Flat(slices), now, plan, handed, counted);
    case Eof =>
      EofKeeps(c, w, plan, handed, counted);
      assert handed + [] == handed;
  }

  lemma StoppedStep(c: Cipher, w: Writer, call: Call, plan: seq<Took>)
    requires Stopped(w) && Idle(c, w)
    ensures var r := Step(c, w, call, plan);
      && Stopped(r.w) && Idle(c, r.w)
      && r.w.sealed == w.sealed && r.w.wire == w.wire && r.plan == plan && r.n == 0
      && (call.Batch? && Flat(call.slices) != [] ==> r.err != None)
  {
  }

  /** After a failed flush, an end marker or an exhausted sequence nothing is sealed or sent any more,
      whatever is called. */
  lemma {:induction false} NothingFollows(c: Cipher, w: Writer, calls: seq<Call>, plan: seq<Took>)
    requires Stopped(w) && Idle(c, w)
    ensures var r := Run(c, w, calls, plan);
      && Stopped(r.w) && Idle(c, r.w)
      && r.w.sealed == w.sealed && r.w.wire == w.wire && r.plan == plan && r.n == 0
    ensures calls != [] && calls[|calls| - 1].Batch? && Flat(calls[|calls| - 1].slices) != []
      ==> Run(c, w, calls, plan).err != None
  {
    if calls != [] {
      var front := calls[..|calls| - 1];
      NothingFollows(c, w, front, plan);
      StoppedStep(c, Run(c, w, front, plan).w, calls[|calls| - 1], Run(c, w, front, plan).plan);
    }
  }

  /** Whatever a batch seals carries data. */
  lemma BatchFills(c: Cipher, w: Writer, data: Bytes, now: int, plan: seq<Took>)
    requires Filled(w.sealed)
    ensures Filled(WriteBatch(c, w, data, now, plan).w.sealed)
  {
    if !w.closed {
      var p := Point(Burst(w, now), [], 0, 0, plan, None);
      PumpSeals(c, p, data);
      var sealed := Pump(c, p, data).w.sealed;
      RecordsFilled(data, p.w.burst);
      FilledConcat(w.sealed, sealed[|w.sealed|..], Records(data, p.w.burst));
      assert w.sealed + sealed[|w.sealed|..] == sealed;
    }
  }
}
