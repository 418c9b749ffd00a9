/** FramedReader of internal/rawstream/stream.go over an arbitrary network.

    A network is a sequence of events: bytes, deadline expiries, an end, or failures, in any order.  The
    reader keeps a partial header, a partial body and undelivered payload across calls.  With an ideal
    cipher, whatever the network does, what is read is an initial part of what was sealed, a clean end
    is reported only at the authenticated empty record, and errors and the end are permanent.  On a
    network that carries the records unchanged, with any deadline expiries in between, everything is
    read. */
module RawReader {
  import opened Octets
  import opened Network
  import opened RawRecord

  /** `head` and `body` are the parts of the next record already read, `plain` the decrypted bytes not
      yet delivered, `next` the sequence number of the next record. */
  datatype Reader = Reader(head: Bytes, body: Bytes, plain: Bytes, next: nat, fatal: Error, ended: bool)

  const Fresh := Reader([], [], [], 0, None, false)

  predicate Valid(r: Reader) {
    && |r.head| <= 2
    && (r.body != [] ==> |r.head| == 2 && TAG <= Value(r.head) <= MAX_WIRE && |r.body| <= Value(r.head))
    && (r.body != [] && r.fatal == None ==> |r.body| < Value(r.head))
    && (r.plain != [] ==> r.head == [] && r.body == [] && r.fatal == None && !r.ended)
    && (r.ended ==> r.fatal == None)
    && r.next <= MAX_SEQUENCE
  }

  datatype Outcome = Outcome(r: Reader, out: Bytes, err: Error, rest: seq<Event>)

  function Deliver(r: Reader, want: nat, events: seq<Event>): Outcome {
    var n := if |r.plain| < want then |r.plain| else want;
    Outcome(r.(plain := r.plain[n..]), r.plain[..n], None, events)
  }

  function Stop(r: Reader, stop: Error, events: seq<Event>): Outcome {
    Outcome(if stop == Timeout then r else r.(fatal := stop), [], stop, events)
  }

  /** A whole record is in `head` and `body`. */
  function Unseal(c: Cipher, r: Reader, want: nat, events: seq<Event>): Outcome {
    if r.next == MAX_SEQUENCE then Stop(r, DecryptionFailed, events)
    else
      match c.open(Nonce(r.next), r.body, BigEndian(Value(r.head), 2))
      case Rejected => Stop(r.(next := r.next + 1), DecryptionFailed, events)
      case Plain(payload) =>
        var next := Reader([], [], payload, r.next + 1, None, false);
        if payload == [] then Outcome(next.(ended := true), [], Eof, events)
        else Deliver(next, want, events)
  }

  function Finish(c: Cipher, r: Reader, want: nat, f: Fill): Outcome {
    var filled := r.(body := r.body + f.got);
    if f.stop != None then Stop(filled, f.stop, f.rest) else Unseal(c, filled, want, f.rest)
  }

  function ReadBody(c: Cipher, r: Reader, want: nat, events: seq<Event>): Outcome {
    var size := Value(r.head);
    if size < TAG then Stop(r, DecryptionFailed, events)
    else if size > MAX_WIRE then Stop(r, TooLarge, events)
    else Finish(c, r, want, ReadFull(events, if size < |r.body| then 0 else size - |r.body|))
  }

  function ReadHead(c: Cipher, r: Reader, want: nat, events: seq<Event>): Outcome {
    var f := ReadFull(events, if |r.head| < 2 then 2 - |r.head| else 0);
    var filled := r.(head := r.head + f.got);
    if f.stop != None then Stop(filled, f.stop, f.rest) else ReadBody(c, filled, want, f.rest)
  }

  function Read(c: Cipher, r: Reader, want: nat, events: seq<Event>): Outcome {
    if want == 0 then Outcome(r, [], None, events)
    else if r.plain != [] then Deliver(r, want, events)
    else if r.fatal != None then Outcome(r, [], r.fatal, events)
    else if r.ended then Outcome(r, [], Eof, events)
    else ReadHead(c, r, want, events)
  }

  /** A run of calls: everything delivered, and the last call's error. */
  function Run(c: Cipher, r: Reader, wants: seq<nat>, events: seq<Event>): Outcome {
    if wants == [] then Outcome(r, [], None, events)
    else
      var before := Run(c, r, wants[..|wants| - 1], events);
      var o := Read(c, before.r, wants[|wants| - 1], before.rest);
      o.(out := before.out + o.out)
  }

  // ---------------------------------------------------------------- the reader's own state

  /** A record is being read. */
  predicate Reading(r: Reader) { r.plain == [] && r.fatal == None && !r.ended }

  /** A whole record is in `head` and `body`. */
  predicate Whole(r: Reader) {
    |r.head| == 2 && TAG <= Value(r.head) <= MAX_WIRE && |r.body| == Value(r.head) && r.next <= MAX_SEQUENCE
  }

  lemma UnsealValid(c: Cipher, r: Reader, want: nat, events: seq<Event>)
    requires Reading(r) && Whole(r)
    ensures Valid(Unseal(c, r, want, events).r)
  {
  }

  lemma BodyValid(c: Cipher, r: Reader, want: nat, events: seq<Event>)
    requires Reading(r) && Valid(r) && |r.head| == 2
    ensures Valid(ReadBody(c, r, want, events).r)
  {
    if TAG <= Value(r.head) <= MAX_WIRE {
      var f := ReadFull(events, Value(r.head) - |r.body|);
      if f.stop == None {
        UnsealValid(c, r.(body := r.body + f.got), want, f.rest);
      }
    }
  }

  lemma HeadValid(c: Cipher, r: Reader, want: nat, events: seq<Event>)
    requires Reading(r) && Valid(r)
    ensures Valid(ReadHead(c, r, want, events).r)
  {
    if |r.head| == 2 {
      assert r.head + [] == r.head;
      BodyValid(c, r, want, events);
    } else {
      var f := ReadFull(events, 2 - |r.head|);
      var filled := r.(head := r.head + f.got);
      assert filled.body == [] && |filled.head| <= 2;
      assert Valid(filled);
      if f.stop == None {
        BodyValid(c, filled, want, f.rest);
      }
    }
  }

  lemma ReadValid(c: Cipher, r: Reader, want: nat, events: seq<Event>)
    requires Valid(r)
    ensures Valid(Read(c, r, want, events).r)
  {
    if Reading(r) {
      HeadValid(c, r, want, events);
    }
  }

  // ---------------------------------------------------------------- any network

  /** `seen` bytes were delivered so far; what is still to deliver, and how many records were opened. */
  ghost predicate Faithful(log: Log, r: Reader, seen: Bytes) {
    Consistent(log, r.plain, r.next, r.fatal, r.ended, seen)
  }

  ghost predicate Consistent(log: Log, plain: Bytes, next: nat, fatal: Error, ended: bool, seen: Bytes) {
    && seen + plain <= Flat(log)
    && (fatal == None ==> next <= |log| && seen + plain == Flat(log[..next]))
    && (fatal != None ==> plain == [])
    && (ended ==> fatal == None && 0 < next && log[next - 1] == [])
  }

  lemma OnlySealed(c: Cipher, log: Log, r: Reader, payload: Bytes)
    requires Ideal(c, log) && Bounded(log) && r.next < MAX_SEQUENCE
    requires c.OpensTo(Nonce(r.next), r.body, BigEndian(Value(r.head), 2), payload)
    ensures r.next < |log| && payload == log[r.next]
  {
    var i: nat :| Accounts(c, log, i, Nonce(r.next), r.body, BigEndian(Value(r.head), 2), payload);
    NoncesDiffer(r.next, i);
  }

  lemma FlatNext(log: Log, k: nat)
    requires k < |log|
    ensures Flat(log[..k + 1]) == Flat(log[..k]) + log[k]
  {
    assert log[..k + 1] == log[..k] + [log[k]];
    FlatPush(log[..k], log[k]);
  }

  lemma DeliverKeeps(log: Log, r: Reader, want: nat, events: seq<Event>, seen: Bytes)
    requires Faithful(log, r, seen) && r.plain != []
    ensures var o := Deliver(r, want, events); Faithful(log, o.r, seen + o.out)
  {
    var o := Deliver(r, want, events);
    assert seen + r.plain == (seen + o.out) + o.r.plain;
  }

  lemma UnsealKeeps(c: Cipher, log: Log, r: Reader, want: nat, events: seq<Event>, seen: Bytes)
    requires Ideal(c, log) && Bounded(log) && Faithful(log, r, seen) && Reading(r)
    ensures var o := Unseal(c, r, want, events); Faithful(log, o.r, seen + o.out)
  {
    assert seen + [] == seen;
    if r.next < MAX_SEQUENCE {
      var answer := c.open(Nonce(r.next), r.body, BigEndian(Value(r.head), 2));
      if answer.Plain? {
        OnlySealed(c, log, r, answer.payload);
        FlatNext(log, r.next);
        FlatPrefix(log, r.next + 1);
        if answer.payload != [] {
          DeliverKeeps(log, Reader([], [], answer.payload, r.next + 1, None, false), want, events, seen);
        }
      }
    }
  }

  lemma BodyKeeps(c: Cipher, log: Log, r: Reader, want: nat, events: seq<Event>, seen: Bytes)
    requires Ideal(c, log) && Bounded(log) && Faithful(log, r, seen) && Reading(r)
    ensures var o := ReadBody(c, r, want, events); Faithful(log, o.r, seen + o.out)
  {
    assert seen + [] == seen;
    if TAG <= Value(r.head) <= MAX_WIRE {
      var f := ReadFull(events, if Value(r.head) < |r.body| then 0 else Value(r.head) - |r.body|);
      if f.stop == None {
        UnsealKeeps(c, log, r.(body := r.body + f.got), want, f.rest, seen);
      }
    }
  }

  lemma HeadKeeps(c: Cipher, log: Log, r: Reader, want: nat, events: seq<Event>, seen: Bytes)
    requires Ideal(c, log) && Bounded(log) && Faithful(log, r, seen) && Reading(r)
    ensures var o := ReadHead(c, r, want, events); Faithful(log, o.r, seen + o.out)
  {
    assert seen + [] == seen;
    var f := ReadFull(events, if |r.head| < 2 then 2 - |r.head| else 0);
    if f.stop == None {
      BodyKeeps(c, log, r.(head := r.head + f.got), want, f.rest, seen);
    }
  }

  lemma ReadKeeps(c: Cipher, log: Log, r: Reader, want: nat, events: seq<Event>, seen: Bytes)
    requires Ideal(c, log) && Bounded(log) && Faithful(log, r, seen)
    ensures var o := Read(c, r, want, events); Faithful(log, o.r, seen + o.out)
  {
    assert seen + [] == seen;
    if r.plain != [] {
      DeliverKeeps(log, r, want, events, seen);
    } else if Reading(r) {
      HeadKeeps(c, log, r, want, events, seen);
    }
  }

  lemma {:induction false} RunKeeps(c: Cipher, log: Log, wants: seq<nat>, events: seq<Event>)
    requires Ideal(c, log) && Bounded(log)
    ensures var o := Run(c, Fresh, wants, events); Faithful(log, o.r, o.out)
  {
    if wants != [] {
      var before := Run(c, Fresh, wants[..|wants| - 1], events);
      RunKeeps(c, log, wants[..|wants| - 1], events);
      ReadKeeps(c, log, before.r, wants[|wants| - 1], before.rest, before.out);
    }
  }

  // ---------------------------------------------------------------- errors and the end are permanent

  /** Reading has come to `err` for good. */
  predicate Final(r: Reader, err: Error) {
    && r.plain == []
    && err != None
    && (r.fatal == err || (r.fatal == None && r.ended && err == Eof))
  }

  predicate Settled(o: Outcome) { o.err != None && o.err != Timeout ==> Final(o.r, o.err) && o.out == [] }

  lemma BodySettled(c: Cipher, r: Reader, want: nat, events: seq<Event>)
    requires Reading(r)
    ensures Settled(ReadBody(c, r, want, events))
  {
  }

  lemma HeadSettled(c: Cipher, r: Reader, want: nat, events: seq<Event>)
    requires Reading(r)
    ensures Settled(ReadHead(c, r, want, events))
  {
    var f := ReadFull(events, if |r.head| < 2 then 2 - |r.head| else 0);
    if f.stop == None {
      BodySettled(c, r.(head := r.head + f.got), want, f.rest);
    }
  }

  /** A call that reports anything but a deadline delivers nothing and settles the matter for good. */
  lemma ErrorIsFinal(c: Cipher, r: Reader, want: nat, events: seq<Event>)
    ensures Settled(Read(c, r, want, events))
  {
    if Reading(r) {
      HeadSettled(c, r, want, events);
    }
  }

  /** The end is reported only by a reader that opened the empty record. */
  lemma EofMeansEnded(c: Cipher, wants: seq<nat>, events: seq<Event>)
    ensures var o := Run(c, Fresh, wants, events); o.err == Eof ==> o.r.ended && o.r.plain == []
  {
    if wants != [] {
      var before := Run(c, Fresh, wants[..|wants| - 1], events);
      FatalIsNotEof(c, Fresh, wants, events);
      ErrorIsFinal(c, before.r, wants[|wants| - 1], before.rest);
    }
  }

  lemma BodyNotEof(c: Cipher, r: Reader, want: nat, events: seq<Event>)
    requires r.fatal != Eof
    ensures ReadBody(c, r, want, events).r.fatal != Eof
  {
  }

  lemma ReadNotEof(c: Cipher, r: Reader, want: nat, events: seq<Event>)
    requires r.fatal != Eof
    ensures Read(c, r, want, events).r.fatal != Eof
  {
    var f := ReadFull(events, if |r.head| < 2 then 2 - |r.head| else 0);
    BodyNotEof(c, r.(head := r.head + f.got), want, f.rest);
  }

  lemma {:induction false} FatalIsNotEof(c: Cipher, r: Reader, wants: seq<nat>, events: seq<Event>)
    requires r.fatal != Eof
    ensures Run(c, r, wants, events).r.fatal != Eof
  {
    if wants != [] {
      var before := Run(c, r, wants[..|wants| - 1], events);
      FatalIsNotEof(c, r, wants[..|wants| - 1], events);
      ReadNotEof(c, before.r, wants[|wants| - 1], before.rest);
    }
  }

  lemma {:induction false} FinalStays(c: Cipher, r: Reader, err: Error, wants: seq<nat>, events: seq<Event>)
    requires Final(r, err)
    ensures var o := Run(c, r, wants, events);
      && o.r == r && o.out == [] && o.rest == events
      && (wants != [] && wants[|wants| - 1] > 0 ==> o.err == err)
  {
    if wants != [] {
      FinalStays(c, r, err, wants[..|wants| - 1], events);
    }
  }

  // ---------------------------------------------------------------- a network that carries the records

  /** The wire bytes of records `k` and up. */
  function Ahead(c: Cipher, log: Log, k: nat): Bytes
    decreases |log| - k
  {
    if k >= |log| then [] else c.Record(k, log[k]) + Ahead(c, log, k + 1)
  }

  lemma {:induction false} WireAhead(c: Cipher, log: Log, k: nat)
    requires k <= |log|
    ensures Wire(c, log[..k]) + Ahead(c, log, k) == Wire(c, log)
    decreases |log| - k
  {
    if k == |log| {
      assert log[..k] == log;
    } else {
      WireAhead(c, log, k + 1);
      assert log[..k + 1] == log[..k] + [log[k]];
      WirePush(c, log[..k], log[k]);
      Assoc(Wire(c, log[..k]), c.Record(k, log[k]), Ahead(c, log, k + 1));
    }
  }

  /** Only the last record may be empty. */
  ghost predicate Ending(log: Log) { forall i | 0 <= i < |log| - 1 :: log[i] != [] }

  /** The payload side: what was delivered and is to be delivered is what was opened. */
  ghost predicate Even(log: Log, plain: Bytes, next: nat, ended: bool, seen: Bytes) {
    && next <= |log|
    && seen + plain == Flat(log[..next])
    && (ended <==> 0 < next && log[next - 1] == [])
  }

  /** The wire side: what was read of the current record and is yet to arrive is what lies ahead. */
  ghost predicate Lined(c: Cipher, log: Log, head: Bytes, body: Bytes, next: nat, events: seq<Event>) {
    Gentle(events) && head + (body + Arrived(events)) == Ahead(c, log, next)
  }

  ghost predicate OnTrack(c: Cipher, log: Log, r: Reader, seen: Bytes, events: seq<Event>) {
    && Valid(r)
    && r.fatal == None
    && Even(log, r.plain, r.next, r.ended, seen)
    && Lined(c, log, r.head, r.body, r.next, events)
  }

  function Left(r: Reader, events: seq<Event>): nat { |events| + |r.head| + |r.body| + |r.plain| }

  predicate Done(r: Reader, events: seq<Event>) { r.ended || (events == [] && r.plain == []) }

  /** A step keeps the reader on track and, until it is done, gets closer to the end. */
  ghost predicate Advances(c: Cipher, log: Log, left: nat, seen: Bytes, o: Outcome) {
    && OnTrack(c, log, o.r, seen + o.out, o.rest)
    && (Done(o.r, o.rest) || Left(o.r, o.rest) < left)
  }

  /** With two header bytes read, they and what follows are the next record. */
  lemma RecordAhead(c: Cipher, log: Log, k: nat, head: Bytes, body: Bytes, events: seq<Event>)
    requires Bounded(log) && Opens(c, log) && |head| == 2 && Lined(c, log, head, body, k, events)
    ensures k < |log|
    ensures Value(head) == |log[k]| + TAG && BigEndian(Value(head), 2) == Header(|log[k]|)
    ensures body + Arrived(events) == c.Sealed(k, log[k]) + Ahead(c, log, k + 1)
    ensures |c.Sealed(k, log[k])| == Value(head)
  {
    assert k < |log| ==> OpensAt(c, log, k);
    var p := log[k];
    var rest := c.Sealed(k, p) + Ahead(c, log, k + 1);
    assert Header(|p|) + rest == Ahead(c, log, k);
    Cancel(head, Header(|p|), body + Arrived(events), rest);
    HeaderValue(|p|);
  }

  lemma DeliverAdvances(c: Cipher, log: Log, r: Reader, want: nat, events: seq<Event>, seen: Bytes)
    requires OnTrack(c, log, r, seen, events) && r.plain != [] && want > 0
    ensures Advances(c, log, Left(r, events), seen, Deliver(r, want, events))
  {
    var o := Deliver(r, want, events);
    assert seen + r.plain == (seen + o.out) + o.r.plain;
  }

  /** A whole record read off the wire opens to the payload that was sealed. */
  lemma WholeOpens(c: Cipher, log: Log, r: Reader, events: seq<Event>)
    requires Bounded(log) && Opens(c, log) && Whole(r) && Lined(c, log, r.head, r.body, r.next, events)
    ensures r.next < |log|
    ensures c.open(Nonce(r.next), r.body, BigEndian(Value(r.head), 2)) == Plain(log[r.next])
    ensures Value(r.head) == |log[r.next]| + TAG
    ensures Lined(c, log, [], [], r.next + 1, events)
  {
    RecordAhead(c, log, r.next, r.head, r.body, events);
    var p := log[r.next];
    assert OpensAt(c, log, r.next);
    Cancel(r.body, c.Sealed(r.next, p), Arrived(events), Ahead(c, log, r.next + 1));
    assert c.OpensTo(Nonce(r.next), r.body, Header(|p|), p);
    assert [] + ([] + Arrived(events)) == Arrived(events);
  }

  lemma UnsealAdvances(c: Cipher, log: Log, r: Reader, want: nat, events: seq<Event>, seen: Bytes)
    requires Bounded(log) && Opens(c, log) && want > 0
    requires Reading(r) && Whole(r)
    requires Even(log, [], r.next, false, seen) && Lined(c, log, r.head, r.body, r.next, events)
    ensures Advances(c, log, Left(r, events), seen, Unseal(c, r, want, events))
  {
    WholeOpens(c, log, r, events);
    var p := log[r.next];
    FlatNext(log, r.next);
    assert seen + [] == seen;
    var next := Reader([], [], p, r.next + 1, None, p == []);
    assert Even(log, p, r.next + 1, p == [], seen);
    assert OnTrack(c, log, next, seen, events);
    if p != [] {
      DeliverAdvances(c, log, next, want, events, seen);
    }
  }

  /** A reader that stopped inside a record of which nothing more arrives cannot be: the network
      carries whole records. */
  lemma NoneAhead(c: Cipher, log: Log, head: Bytes, body: Bytes, next: nat)
    requires Bounded(log) && Opens(c, log) && Lined(c, log, head, body, next, [])
    requires |head| <= 2 && (body != [] ==> |head| == 2 && |body| < Value(head))
    ensures next >= |log| && head == [] && body == []
  {
    if |head| == 2 {
      RecordAhead(c, log, next, head, body, []);
      assert false;
    } else if next < |log| {
      assert false;
    }
  }

  lemma EvenAtEnd(log: Log, ended: bool, seen: Bytes)
    requires Even(log, [], |log|, ended, seen)
    ensures seen == Flat(log) && (ended <==> log != [] && log[|log| - 1] == [])
  {
    assert seen + [] == seen;
    assert log[..|log|] == log;
  }

  lemma BodyLined(c: Cipher, log: Log, head: Bytes, body: Bytes, next: nat, events: seq<Event>, want: nat)
    requires Lined(c, log, head, body, next, events)
    ensures var f := ReadFull(events, want); Lined(c, log, head, body + f.got, next, f.rest)
  {
    FillGentle(events, want);
    var f := ReadFull(events, want);
    Assoc(body, f.got, Arrived(f.rest));
  }

  lemma HeadLined(c: Cipher, log: Log, head: Bytes, next: nat, events: seq<Event>, want: nat)
    requires Lined(c, log, head, [], next, events)
    ensures var f := ReadFull(events, want); Lined(c, log, head + f.got, [], next, f.rest)
  {
    FillGentle(events, want);
    var f := ReadFull(events, want);
    Assoc(head, f.got, Arrived(f.rest));
    assert [] + Arrived(events) == Arrived(events) && [] + Arrived(f.rest) == Arrived(f.rest);
  }

  lemma PartialValid(r: Reader, more: Bytes)
    requires Valid(r) && Reading(r) && |r.head| == 2
    requires TAG <= Value(r.head) <= MAX_WIRE && |r.body + more| < Value(r.head)
    ensures Valid(r.(body := r.body + more))
  {
  }

  lemma PartialOnTrack(c: Cipher, log: Log, r: Reader, events: seq<Event>, seen: Bytes, want: nat)
    requires OnTrack(c, log, r, seen, events) && |r.head| == 2 && Reading(r)
    requires TAG <= Value(r.head) <= MAX_WIRE && |r.body| + want == Value(r.head)
    ensures var f := ReadFull(events, want);
      f.stop != None ==> OnTrack(c, log, r.(body := r.body + f.got), seen, f.rest)
  {
    BodyLined(c, log, r.head, r.body, r.next, events, want);
    if ReadFull(events, want).stop != None {
      PartialValid(r, ReadFull(events, want).got);
    }
  }

  lemma BodyStops(c: Cipher, log: Log, r: Reader, events: seq<Event>, seen: Bytes, want: nat)
    requires OnTrack(c, log, r, seen, events) && |r.head| == 2 && Reading(r)
    requires TAG <= Value(r.head) <= MAX_WIRE && |r.body| + want == Value(r.head)
    ensures var f := ReadFull(events, want);
      f.stop != None ==> Advances(c, log, Left(r, events), seen, Stop(r.(body := r.body + f.got), f.stop, f.rest))
  {
    PartialOnTrack(c, log, r, events, seen, want);
    FillStops(events, want);
    assert seen + [] == seen;
  }

  lemma BodyFull(c: Cipher, log: Log, r: Reader, want: nat, events: seq<Event>, seen: Bytes, missing: nat)
    requires Bounded(log) && Opens(c, log) && OnTrack(c, log, r, seen, events) && want > 0
    requires |r.head| == 2 && Reading(r) && TAG <= Value(r.head) <= MAX_WIRE && |r.body| + missing == Value(r.head)
    ensures var f := ReadFull(events, missing);
      f.stop == None ==> Advances(c, log, Left(r, events), seen, Unseal(c, r.(body := r.body + f.got), want, f.rest))
  {
    BodyLined(c, log, r.head, r.body, r.next, events, missing);
    var f := ReadFull(events, missing);
    if f.stop == None {
      UnsealAdvances(c, log, r.(body := r.body + f.got), want, f.rest, seen);
    }
  }

  lemma HeaderInRange(c: Cipher, log: Log, r: Reader, events: seq<Event>)
    requires Bounded(log) && Opens(c, log) && |r.head| == 2 && Lined(c, log, r.head, r.body, r.next, events)
    ensures TAG <= Value(r.head) <= MAX_WIRE
  {
    RecordAhead(c, log, r.next, r.head, r.body, events);
  }

  lemma BodyAdvances(c: Cipher, log: Log, r: Reader, want: nat, events: seq<Event>, seen: Bytes, left: nat)
    requires Bounded(log) && Opens(c, log) && OnTrack(c, log, r, seen, events) && want > 0
    requires |r.head| == 2 && Reading(r) && Left(r, events) <= left
    ensures Advances(c, log, left, seen, ReadBody(c, r, want, events))
  {
    HeaderInRange(c, log, r, events);
    var missing := Value(r.head) - |r.body|;
    var f := ReadFull(events, missing);
    var filled := r.(body := r.body + f.got);
    if f.stop != None {
      BodyStops(c, log, r, events, seen, missing);
      assert ReadBody(c, r, want, events) == Stop(filled, f.stop, f.rest);
    } else {
      BodyFull(c, log, r, want, events, seen, missing);
      assert ReadBody(c, r, want, events) == Unseal(c, filled, want, f.rest);
    }
  }

  lemma HeadAdvances(c: Cipher, log: Log, r: Reader, want: nat, events: seq<Event>, seen: Bytes)
    requires Bounded(log) && Opens(c, log) && OnTrack(c, log, r, seen, events) && want > 0
    requires Reading(r) && |r.head| < 2
    ensures Advances(c, log, Left(r, events), seen, ReadHead(c, r, want, events))
  {
    assert seen + [] == seen;
    FillStops(events, 2 - |r.head|);
    HeadLined(c, log, r.head, r.next, events, 2 - |r.head|);
    var f := ReadFull(events, 2 - |r.head|);
    if f.stop == None {
      BodyAdvances(c, log, r.(head := r.head + f.got), want, f.rest, seen, Left(r, events));
    }
  }

  lemma ReadAdvances(c: Cipher, log: Log, r: Reader, want: nat, events: seq<Event>, seen: Bytes)
    requires Bounded(log) && Opens(c, log) && OnTrack(c, log, r, seen, events) && want > 0
    ensures Advances(c, log, Left(r, events), seen, Read(c, r, want, events))
  {
    if r.plain != [] {
      DeliverAdvances(c, log, r, want, events, seen);
    } else if r.ended {
      assert seen + [] == seen;
    } else if |r.head| < 2 {
      HeadAdvances(c, log, r, want, events, seen);
    } else {
      assert r.head + [] == r.head;
      BodyAdvances(c, log, r, want, events, seen, Left(r, events));
    }
  }

  /** When the network carries the records unchanged, with any deadline expiries between any two bytes,
      one call per event is enough to read every payload byte, and the end if it was sealed. */
  lemma {:induction false} ReadsEverything(c: Cipher, log: Log, wants: seq<nat>, events: seq<Event>)
    requires Bounded(log) && Opens(c, log) && Ending(log)
    requires Gentle(events) && Arrived(events) == Wire(c, log)
    requires |wants| >= |events| && forall i | 0 <= i < |wants| :: wants[i] > 0
    ensures var o := Run(c, Fresh, wants, events);
      && o.out == Flat(log)
      && o.r.fatal == None
      && (o.r.ended <==> log != [] && log[|log| - 1] == [])
  {
    RunAdvances(c, log, wants, events);
    DoneMeansAll(c, log, Run(c, Fresh, wants, events), |events|, |wants|);
  }

  lemma DoneMeansAll(c: Cipher, log: Log, o: Outcome, budget: nat, calls: nat)
    requires Bounded(log) && Opens(c, log) && Ending(log) && Progress(c, log, o, budget, calls) && calls >= budget
    ensures o.out == Flat(log) && o.r.fatal == None && (o.r.ended <==> log != [] && log[|log| - 1] == [])
  {
    if !o.r.ended {
      NoneAhead(c, log, o.r.head, o.r.body, o.r.next);
    }
    assert o.r.next == |log|;
    EvenAtEnd(log, o.r.ended, o.out);
  }

  ghost predicate Progress(c: Cipher, log: Log, o: Outcome, budget: nat, calls: nat) {
    && OnTrack(c, log, o.r, o.out, o.rest)
    && (Done(o.r, o.rest) || Left(o.r, o.rest) + calls <= budget)
  }

  lemma Start(c: Cipher, log: Log, events: seq<Event>)
    requires Gentle(events) && Arrived(events) == Wire(c, log)
    ensures Progress(c, log, Outcome(Fresh, [], None, events), |events|, 0)
  {
    WireAhead(c, log, 0);
    assert log[..0] == [];
    assert [] + ([] + Wire(c, log)) == Ahead(c, log, 0);
  }

  lemma ReadProgress(c: Cipher, log: Log, before: Outcome, want: nat, budget: nat, calls: nat)
    requires Bounded(log) && Opens(c, log) && want > 0 && Progress(c, log, before, budget, calls)
    ensures var o := Read(c, before.r, want, before.rest);
      Progress(c, log, o.(out := before.out + o.out), budget, calls + 1)
  {
    ReadAdvances(c, log, before.r, want, before.rest, before.out);
    if Done(before.r, before.rest) && !before.r.ended {
      NoneAhead(c, log, before.r.head, before.r.body, before.r.next);
    }
  }

  lemma {:induction false} RunAdvances(c: Cipher, log: Log, wants: seq<nat>, events: seq<Event>)
    requires Bounded(log) && Opens(c, log)
    requires Gentle(events) && Arrived(events) == Wire(c, log)
    requires forall i | 0 <= i < |wants| :: wants[i] > 0
    ensures Progress(c, log, Run(c, Fresh, wants, events), |events|, |wants|)
  {
    if wants == [] {
      Start(c, log, events);
    } else {
      var n := |wants| - 1;
      RunAdvances(c, log, wants[..n], events);
      ReadProgress(c, log, Run(c, Fresh, wants[..n], events), wants[n], |events|, n);
    }
  }
}
