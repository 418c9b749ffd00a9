/** The buffered pipe of pkg/client/bufpipe.go.

    The reference is a byte queue with a capacity.  A turn of a call is what it does between taking the
    lock and returning or waiting; any number of readers, writers and closers interleave their turns.
    Over every run, what was read followed by what is queued is what the writers appended, in order;
    each writer reports exactly what it appended; and an end or error is reported only when nothing is
    queued, after which nothing is ever appended. */
module BytePipe {
  import opened Octets

  datatype Error = None | Eof | ClosedPipe | Given(code: nat)

  datatype Pipe = Pipe(queue: Bytes, capacity: nat, closed: bool, err: Error)

  /** A turn either waits or answers. */
  datatype ReadTurn = ReadWaits | ReadAnswers(pipe: Pipe, out: Bytes, err: Error)

  function Read(p: Pipe, want: nat): ReadTurn {
    if want == 0 then ReadAnswers(p, [], None)
    else if p.queue == [] then
      if p.err != None then ReadAnswers(p, [], p.err)
      else if p.closed then ReadAnswers(p, [], Eof)
      else ReadWaits
    else
      var n := Min(want, |p.queue|);
      ReadAnswers(p.(queue := p.queue[n..]), p.queue[..n], None)
  }

  /** A writer's turn appends what fits; it waits when some is left. */
  datatype WriteTurn = WriteTurn(pipe: Pipe, n: nat, err: Error, waits: bool)

  function Write(p: Pipe, rest: Bytes): WriteTurn {
    if rest == [] then WriteTurn(p, 0, None, false)
    else if p.err != None then WriteTurn(p, 0, p.err, false)
    else if p.closed then WriteTurn(p, 0, ClosedPipe, false)
    else
      var n := if p.capacity < |p.queue| then 0 else Min(|rest|, p.capacity - |p.queue|);
      WriteTurn(p.(queue := p.queue + rest[..n]), n, None, n < |rest|)
  }

  function CloseWith(p: Pipe, err: Error): Pipe {
    p.(closed := true, err := if p.err == None then err else p.err)
  }

  // ---------------------------------------------------------------- interleaved calls

  /** A call of Write; `finished` when it has returned `written` and `err`. */
  datatype Call = Call(data: Bytes, written: nat, finished: bool, err: Error)

  datatype Chunk = Chunk(writer: nat, data: Bytes)

  datatype World = World(pipe: Pipe, writers: seq<Call>, sent: seq<Chunk>, got: Bytes)

  datatype Event =
    | Begin(data: Bytes)
    | Turn(writer: nat)
    | Receive(want: nat)
    | Close
    | CloseWithError(err: Error)

  predicate Enabled(w: World, e: Event) {
    match e
    case Turn(i) => i < |w.writers| && !w.writers[i].finished && w.writers[i].written <= |w.writers[i].data|
    case Receive(want) => Read(w.pipe, want).ReadAnswers?
    case CloseWithError(err) => err != None
    case _ => true
  }

  function Apply(w: World, e: Event): World
    requires Enabled(w, e)
  {
    match e
    case Begin(data) => w.(writers := w.writers + [Call(data, 0, false, None)])
    case Turn(i) =>
      var call := w.writers[i];
      var t := Write(w.pipe, call.data[call.written..]);
      World(t.pipe,
            w.writers[i := Call(call.data, call.written + t.n, !t.waits, t.err)],
            w.sent + [Chunk(i, call.data[call.written..][..Min(t.n, |call.data| - call.written)])],
            w.got)
    case Receive(want) =>
      var r := Read(w.pipe, want);
      w.(pipe := r.pipe, got := w.got + r.out)
    case Close => w.(pipe := w.pipe.(closed := true))
    case CloseWithError(err) => w.(pipe := CloseWith(w.pipe, err))
  }

  ghost predicate Reaches(w: World, events: seq<Event>, end: World)
    decreases |events|
  {
    if events == [] then w == end
    else Enabled(w, events[0]) && Reaches(Apply(w, events[0]), events[1..], end)
  }

  function Start(capacity: nat): World { World(Pipe([], capacity, false, None), [], [], []) }

  // ---------------------------------------------------------------- what every run keeps

  function Stream(sent: seq<Chunk>): Bytes {
    if sent == [] then [] else Stream(sent[..|sent| - 1]) + sent[|sent| - 1].data
  }

  /** What writer `i` appended. */
  function Part(sent: seq<Chunk>, i: nat): Bytes {
    if sent == [] then []
    else
      var before, last := Part(sent[..|sent| - 1], i), sent[|sent| - 1];
      if last.writer == i then before + last.data else before
  }

  ghost predicate CallInv(sent: seq<Chunk>, call: Call, i: nat) {
    && call.written <= |call.data|
    && Part(sent, i) == call.data[..call.written]
    && (call.finished && call.err == None ==> call.written == |call.data|)
  }

  ghost predicate Inv(w: World) {
    && w.got + w.pipe.queue == Stream(w.sent)
    && |w.pipe.queue| <= w.pipe.capacity
    && (w.pipe.err != None ==> w.pipe.closed)
    && (forall i: nat | i < |w.writers| :: CallInv(w.sent, w.writers[i], i))
    && (forall k | 0 <= k < |w.sent| :: w.sent[k].writer < |w.writers|)
  }

  lemma {:induction false} NoPart(sent: seq<Chunk>, i: nat)
    requires forall k | 0 <= k < |sent| :: sent[k].writer < i
    ensures Part(sent, i) == []
  {
    if sent != [] {
      NoPart(sent[..|sent| - 1], i);
    }
  }

  lemma SentMore(sent: seq<Chunk>, chunk: Chunk)
    ensures Stream(sent + [chunk]) == Stream(sent) + chunk.data
    ensures forall i: nat ::
      Part(sent + [chunk], i) == if chunk.writer == i then Part(sent, i) + chunk.data else Part(sent, i)
  {
    assert (sent + [chunk])[..|sent|] == sent;
  }

  /** What one turn of writer `i` appends. */
  function Appended(w: World, i: nat): Bytes
    requires Enabled(w, Turn(i))
  {
    var call := w.writers[i];
    call.data[call.written..][..Min(Write(w.pipe, call.data[call.written..]).n, |call.data| - call.written)]
  }

  lemma TurnQueue(w: World, i: nat)
    requires Inv(w) && Enabled(w, Turn(i))
    ensures var w' := Apply(w, Turn(i));
      w'.got + w'.pipe.queue == Stream(w'.sent) && |w'.pipe.queue| <= w'.pipe.capacity
  {
    var w', part := Apply(w, Turn(i)), Appended(w, i);
    SentMore(w.sent, Chunk(i, part));
    Assoc(w.got, w.pipe.queue, part);
    assert w'.pipe.queue == w.pipe.queue + part;
  }

  lemma TurnCall(w: World, i: nat, k: nat)
    requires Inv(w) && Enabled(w, Turn(i)) && k < |w.writers|
    ensures CallInv(Apply(w, Turn(i)).sent, Apply(w, Turn(i)).writers[k], k)
  {
    var call, part := w.writers[i], Appended(w, i);
    SentMore(w.sent, Chunk(i, part));
    assert CallInv(w.sent, w.writers[k], k);
    assert call.data[..call.written] + part == call.data[..call.written + |part|];
  }

  lemma TurnKeeps(w: World, i: nat)
    requires Inv(w) && Enabled(w, Turn(i))
    ensures Inv(Apply(w, Turn(i)))
  {
    TurnQueue(w, i);
    var w' := Apply(w, Turn(i));
    forall k: nat | k < |w'.writers| ensures CallInv(w'.sent, w'.writers[k], k) {
      TurnCall(w, i, k);
    }
  }

  lemma ReceiveKeeps(w: World, want: nat)
    requires Inv(w) && Enabled(w, Receive(want))
    ensures Inv(Apply(w, Receive(want)))
  {
    var r := Read(w.pipe, want);
    assert r.out + r.pipe.queue == w.pipe.queue;
    Assoc(w.got, r.out, r.pipe.queue);
  }

  lemma ApplyKeeps(w: World, e: Event)
    requires Inv(w) && Enabled(w, e)
    ensures Inv(Apply(w, e))
  {
    match e
    case Begin(data) => NoPart(w.sent, |w.writers|);
    case Turn(i) => TurnKeeps(w, i);
    case Receive(want) => ReceiveKeeps(w, want);
    case Close =>
    case CloseWithError(_) =>
  }

  lemma {:induction false} RunKeeps(w: World, events: seq<Event>, end: World)
    requires Inv(w) && Reaches(w, events, end)
    ensures Inv(end)
    decreases |events|
  {
    if events != [] {
      ApplyKeeps(w, events[0]);
      RunKeeps(Apply(w, events[0]), events[1..], end);
    }
  }

  /** Bytes read are the first bytes appended, the rest is queued within the capacity, and every writer
      reports exactly the initial part of its data that it appended, all of it when it reports no
      error. */
  lemma PipeIsQueue(capacity: nat, events: seq<Event>, end: World, i: nat)
    requires Reaches(Start(capacity), events, end) && i < |end.writers|
    ensures end.got + end.pipe.queue == Stream(end.sent)
    ensures |end.pipe.queue| <= end.pipe.capacity
    ensures var call := end.writers[i];
      && call.written <= |call.data| && Part(end.sent, i) == call.data[..call.written]
      && (call.finished && call.err == None ==> call.written == |call.data|)
  {
    RunKeeps(Start(capacity), events, end);
    assert CallInv(end.sent, end.writers[i], i);
  }

  /** No call can append once the pipe is closed. */
  lemma {:induction false} ClosedIsFinal(w: World, events: seq<Event>, end: World)
    requires Inv(w) && w.pipe.closed && Reaches(w, events, end)
    ensures end.pipe.closed && Stream(end.sent) == Stream(w.sent)
    decreases |events|
  {
    if events != [] {
      var e := events[0];
      ApplyKeeps(w, e);
      if e.Turn? {
        SentMore(w.sent, Chunk(e.writer, []));
      }
      ClosedIsFinal(Apply(w, e), events[1..], end);
    }
  }

  /** A reader is told of the end or an error only when it has read every byte that was or will ever be
      appended. */
  lemma EndMeansAll(capacity: nat, events: seq<Event>, w: World, want: nat, later: seq<Event>, end: World)
    requires Reaches(Start(capacity), events, w) && Read(w.pipe, want).ReadAnswers? && Read(w.pipe, want).err != None
    requires Reaches(w, later, end)
    ensures w.got == Stream(end.sent)
  {
    RunKeeps(Start(capacity), events, w);
    ClosedIsFinal(w, later, end);
    assert w.got + [] == w.got;
  }

  /** The error of the first CloseWithError. */
  function FirstError(events: seq<Event>): Error {
    if events == [] then None
    else if events[0].CloseWithError? then events[0].err
    else FirstError(events[1..])
  }

  predicate Closes(events: seq<Event>) {
    exists i :: 0 <= i < |events| && (events[i].Close? || events[i].CloseWithError?)
  }

  lemma {:induction false} ErrorIsFirst(w: World, events: seq<Event>, end: World)
    requires Reaches(w, events, end)
    ensures end.pipe.err == if w.pipe.err != None then w.pipe.err else FirstError(events)
    ensures end.pipe.closed <==> w.pipe.closed || Closes(events)
    decreases |events|
  {
    if events != [] {
      var rest := events[1..];
      ErrorIsFirst(Apply(w, events[0]), rest, end);
      assert Closes(events) <==> events[0].Close? || events[0].CloseWithError? || Closes(rest) by {
        if Closes(rest) {
          var i :| 0 <= i < |rest| && (rest[i].Close? || rest[i].CloseWithError?);
          assert events[i + 1] == rest[i];
        }
        if Closes(events) && !events[0].Close? && !events[0].CloseWithError? {
          var i :| 0 <= i < |events| && (events[i].Close? || events[i].CloseWithError?);
          assert rest[i - 1] == events[i];
        }
      }
    }
  }

  /** A reader that finds nothing queued is told the error of the first CloseWithError, the end after a
      plain close, and waits while the pipe is open; a writer the same error, or that the pipe is closed. */
  lemma EndIsFirstError(capacity: nat, events: seq<Event>, w: World, want: nat, rest: Bytes)
    requires Reaches(Start(capacity), events, w) && want > 0 && rest != []
    ensures w.pipe.queue == [] ==>
      Read(w.pipe, want) == if FirstError(events) != None then ReadAnswers(w.pipe, [], FirstError(events))
                            else if Closes(events) then ReadAnswers(w.pipe, [], Eof)
                            else ReadWaits
    ensures w.pipe.queue != [] ==> Read(w.pipe, want).ReadAnswers? && |Read(w.pipe, want).out| > 0
    ensures Write(w.pipe, rest).err ==
      if FirstError(events) != None then FirstError(events) else if Closes(events) then ClosedPipe else None
    ensures !Closes(events) && |w.pipe.queue| < capacity ==> Write(w.pipe, rest).n > 0
  {
    ErrorIsFirst(Start(capacity), events, w);
    CapacityStays(Start(capacity), events, w);
    if FirstError(events) != None {
      ErrorsClose(events);
    }
  }

  lemma {:induction false} ErrorsClose(events: seq<Event>)
    requires FirstError(events) != None
    ensures Closes(events)
  {
    if events[0].CloseWithError? {
      assert Closes(events);
    } else {
      ErrorsClose(events[1..]);
      var i :| 0 <= i < |events[1..]| && (events[1..][i].Close? || events[1..][i].CloseWithError?);
      assert events[i + 1] == events[1..][i];
    }
  }

  lemma {:induction false} CapacityStays(w: World, events: seq<Event>, end: World)
    requires Reaches(w, events, end)
    ensures end.pipe.capacity == w.pipe.capacity
    decreases |events|
  {
    if events != [] {
      CapacityStays(Apply(w, events[0]), events[1..], end);
    }
  }
}
