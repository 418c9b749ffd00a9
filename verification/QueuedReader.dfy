/** Reader of pkg/connio/deadline.go: a fetcher that runs ahead by one queued chunk, readers that keep a
    partly consumed chunk, recoverable deadlines, and a close that waits for the fetcher.

    Steps are atomic between synchronisation points: the fetcher's loop, the mutex that readers and
    Close take, the one-place queue.  Each chunk comes with a lease on its buffer, numbered in the order
    of fetching. */
module QueuedReader {
  import opened Octets

  /** A chunk; `lease` is empty once it was released, `err` is 0 when there is none. */
  datatype Item = Item(data: Bytes, err: nat, lease: seq<nat>)

  datatype Fetcher = Top | Fetching | Sending(item: Item) | Exited

  /** Who holds the readers' mutex. */
  datatype Holder = Nobody | Reading(want: nat) | Receiving(room: nat)

  /** A chunk out of the queue, taken by Read or by ReadPacket. */
  datatype Taken = Taken(data: Bytes, stream: bool)

  /** `fetched` are the chunks in the order of fetching, `delivered` what Read has copied out. */
  datatype State = State(
    fetcher: Fetcher,
    queue: seq<Item>,
    done: bool,
    drained: bool,
    pending: Item,
    holder: Holder,
    issued: nat,
    released: multiset<nat>,
    fetched: seq<Bytes>,
    taken: seq<Taken>,
    delivered: Bytes)

  const Initial := State(Top, [], false, false, Item([], 0, []), Nobody, 0, multiset{}, [], [], [])

  function Freed(item: Item): Item { item.(data := [], lease := []) }

  datatype Step =
    | CheckDone                      // top of the fetcher's loop
    | Fetch(data: Bytes, err: nat)   // next returns
    | Send                           // the chunk goes into the queue
    | Abandon                        // done is closed while sending
    | Lock(want: nat)                // Read takes the mutex
    | LockPacket(room: nat)          // ReadPacket takes the mutex
    | GiveUp                         // done, a deadline or a stored error ends the call
    | Take                           // Read receives a chunk
    | Copy(n: nat)                   // Read delivers bytes
    | TakePacket                     // ReadPacket receives a chunk and returns
    | CloseDone                      // Close closes done
    | Drain                          // Close, after the fetcher exited

  predicate Enabled(s: State, step: Step) {
    match step
    case CheckDone => s.fetcher == Top
    case Fetch(_, _) => s.fetcher == Fetching
    case Send => s.fetcher.Sending? && s.queue == []
    case Abandon => s.fetcher.Sending? && s.done
    case Lock(want) => s.holder == Nobody && !s.done && want > 0
    case LockPacket(_) => s.holder == Nobody && s.pending.err == 0
    case GiveUp => s.holder != Nobody
    case Take => s.holder.Reading? && s.pending.data == [] && s.pending.err == 0 && s.queue != []
    case Copy(n) => s.holder.Reading? && s.pending.data != [] &&
                    n == (if s.holder.want < |s.pending.data| then s.holder.want else |s.pending.data|)
    case TakePacket => s.holder.Receiving? && s.queue != []
    case CloseDone => true
    case Drain => s.done && s.fetcher == Exited && s.holder == Nobody
  }

  /** Read frees a chunk as soon as it is used up, before it looks for another. */
  function FreePending(s: State): State {
    if s.pending.data != [] then s
    else s.(pending := Freed(s.pending), released := s.released + multiset(s.pending.lease))
  }

  function Apply(s: State, step: Step): State
    requires Enabled(s, step)
  {
    match step
    case CheckDone => s.(fetcher := if s.done then Exited else Fetching)
    case Fetch(data, err) =>
      s.(fetcher := Sending(Item(data, err, [s.issued])), issued := s.issued + 1, fetched := s.fetched + [data])
    case Send => s.(queue := [s.fetcher.item], fetcher := if s.fetcher.item.err != 0 then Exited else Top)
    case Abandon => s.(fetcher := Exited, released := s.released + multiset(s.fetcher.item.lease))
    case Lock(want) => s.(holder := Reading(want))
    case LockPacket(room) => s.(holder := Receiving(room))
    case GiveUp => if s.holder.Reading? then FreePending(s).(holder := Nobody) else s.(holder := Nobody)
    case Take =>
      var f := FreePending(s);
      f.(pending := s.queue[0], queue := [], taken := s.taken + [Taken(s.queue[0].data, true)])
    case Copy(n) =>
      FreePending(s.(pending := s.pending.(data := s.pending.data[n..]),
                     delivered := s.delivered + s.pending.data[..n],
                     holder := Nobody))
    case TakePacket =>
      s.(queue := [], pending := s.pending.(err := s.queue[0].err),
         released := s.released + multiset(s.queue[0].lease), holder := Nobody,
         taken := s.taken + [Taken(s.queue[0].data, false)])
    case CloseDone => s.(done := true)
    case Drain =>
      s.(pending := Freed(s.pending), queue := [], drained := true,
         released := s.released + multiset(s.pending.lease) + multiset(QueueLease(s.queue)))
  }

  function QueueLease(q: seq<Item>): seq<nat> { if q == [] then [] else q[0].lease }
  function QueueChunk(q: seq<Item>): seq<Bytes> { if q == [] then [] else [q[0].data] }
  function SendLease(f: Fetcher): seq<nat> { if f.Sending? then f.item.lease else [] }
  function SendChunk(f: Fetcher): seq<Bytes> { if f.Sending? then [f.item.data] else [] }

  ghost predicate Reaches(s: State, steps: seq<Step>, end: State)
    decreases |steps|
  {
    if steps == [] then s == end
    else Enabled(s, steps[0]) && Reaches(Apply(s, steps[0]), steps[1..], end)
  }

  // ---------------------------------------------------------------- leases

  function Count(lease: seq<nat>, l: nat): nat { multiset(lease)[l] }

  /** How often lease `l` is held by a chunk on its way. */
  function Held(s: State, l: nat): nat {
    Count(SendLease(s.fetcher), l) + Count(QueueLease(s.queue), l) + Count(s.pending.lease, l)
  }

  /** A chunk whose bytes can still be read holds its lease. */
  predicate Guarded(item: Item) { item.data != [] ==> |item.lease| == 1 }

  ghost predicate Shape(s: State) {
    && |s.queue| <= 1
    && Guarded(s.pending)
    && (s.queue != [] ==> Guarded(s.queue[0]))
    && (s.fetcher.Sending? ==> Guarded(s.fetcher.item))
    && (s.drained ==> s.done && s.fetcher == Exited && s.queue == [] && s.pending.lease == [] && !s.holder.Reading?)
  }

  /** A lease that was handed out is held by one chunk or was released once, and never both. */
  ghost predicate LeaseInv(s: State, l: nat) { s.released[l] + Held(s, l) == if l < s.issued then 1 else 0 }

  lemma ShapeKeeps(s: State, step: Step)
    requires Shape(s) && Enabled(s, step)
    ensures Shape(Apply(s, step))
  {
  }

  lemma FetcherLease(s: State, step: Step, l: nat)
    requires LeaseInv(s, l) && Enabled(s, step) && (step.CheckDone? || step.Fetch? || step.Send? || step.Abandon?)
    ensures LeaseInv(Apply(s, step), l)
  {
  }

  lemma FreeLease(s: State, l: nat)
    requires LeaseInv(s, l)
    ensures LeaseInv(FreePending(s), l)
    ensures s.pending.data == [] ==> Count(FreePending(s).pending.lease, l) == 0
  {
  }

  lemma TakeLease(s: State, l: nat)
    requires LeaseInv(s, l) && Enabled(s, Take)
    ensures LeaseInv(Apply(s, Take), l)
  {
    FreeLease(s, l);
  }

  lemma GiveUpLease(s: State, l: nat)
    requires LeaseInv(s, l) && Enabled(s, GiveUp)
    ensures LeaseInv(Apply(s, GiveUp), l)
  {
    FreeLease(s, l);
  }

  lemma CopyLease(s: State, n: nat, l: nat)
    requires LeaseInv(s, l) && Enabled(s, Copy(n))
    ensures LeaseInv(Apply(s, Copy(n)), l)
  {
    var moved := s.(pending := s.pending.(data := s.pending.data[n..]),
                    delivered := s.delivered + s.pending.data[..n],
                    holder := Nobody);
    FreeLease(moved, l);
    assert Apply(s, Copy(n)) == FreePending(moved);
  }

  lemma LeaseKeeps(s: State, step: Step, l: nat)
    requires Shape(s) && LeaseInv(s, l) && Enabled(s, step)
    ensures LeaseInv(Apply(s, step), l)
  {
    match step
    case CheckDone => FetcherLease(s, step, l);
    case Fetch(_, _) => FetcherLease(s, step, l);
    case Send => FetcherLease(s, step, l);
    case Abandon => FetcherLease(s, step, l);
    case GiveUp => GiveUpLease(s, l);
    case Take => TakeLease(s, l);
    case Copy(n) => CopyLease(s, n, l);
    case _ =>
  }

  // ---------------------------------------------------------------- bytes

  function Chunks(taken: seq<Taken>): seq<Bytes> {
    seq(|taken|, i requires 0 <= i < |taken| => taken[i].data)
  }

  /** The bytes of the chunks that Read has taken. */
  function Stream(taken: seq<Taken>): Bytes {
    if taken == [] then []
    else
      var front, last := Stream(taken[..|taken| - 1]), taken[|taken| - 1];
      if last.stream then front + last.data else front
  }

  /** The chunks on their way, in order. */
  function InFlight(s: State): seq<Bytes> { QueueChunk(s.queue) + SendChunk(s.fetcher) }

  /** Chunks are taken in the order of fetching; before a close none is lost. */
  ghost predicate ChunkInv(s: State) {
    && Chunks(s.taken) + InFlight(s) <= s.fetched
    && (!(s.done && s.fetcher == Exited) ==> Chunks(s.taken) + InFlight(s) == s.fetched)
  }

  /** Read delivers the bytes of its chunks in order; before a close has drained none is lost. */
  ghost predicate StreamInv(s: State) {
    && s.delivered + s.pending.data <= Stream(s.taken)
    && (!s.drained ==> s.delivered + s.pending.data == Stream(s.taken))
  }

  /** An error is the last thing fetched. */
  ghost predicate ErrorInv(s: State) {
    && (s.pending.err != 0 ==> s.queue == [] && s.fetcher == Exited)
    && (s.queue != [] && s.queue[0].err != 0 ==> s.fetcher == Exited)
  }

  lemma ErrorKeeps(s: State, step: Step)
    requires Shape(s) && ErrorInv(s) && Enabled(s, step)
    ensures ErrorInv(Apply(s, step))
  {
  }

  lemma TakenMore(taken: seq<Taken>, t: Taken)
    ensures Chunks(taken + [t]) == Chunks(taken) + [t.data]
    ensures Stream(taken + [t]) == if t.stream then Stream(taken) + t.data else Stream(taken)
  {
    assert (taken + [t])[..|taken|] == taken;
  }

  lemma Regroup(c: seq<Bytes>, q: seq<Bytes>, f: seq<Bytes>)
    ensures c + (q + f) == (c + q) + ([] + f)
    ensures c + (q + []) <= c + (q + f) && c + ([] + []) <= c + (q + f)
  {
    assert c + (q + f) == c + q + f;
  }

  lemma FetcherChunks(s: State, step: Step)
    requires ChunkInv(s) && Enabled(s, step) && (step.CheckDone? || step.Fetch? || step.Send? || step.Abandon?)
    ensures ChunkInv(Apply(s, step))
  {
    var c, q, f := Chunks(s.taken), QueueChunk(s.queue), SendChunk(s.fetcher);
    match step
    case Fetch(data, _) => assert c + (q + [data]) == (c + (q + [])) + [data];
    case Send => assert [] + f == f + [];
    case Abandon => Regroup(c, q, f);
    case CheckDone =>
  }

  lemma TakenChunks(s: State, t: Taken, s': State)
    requires ChunkInv(s) && s.queue != [] && t.data == s.queue[0].data
    requires s'.taken == s.taken + [t] && s'.queue == []
    requires s'.fetcher == s.fetcher && s'.fetched == s.fetched && s'.done == s.done
    ensures ChunkInv(s')
  {
    TakenMore(s.taken, t);
    Regroup(Chunks(s.taken), QueueChunk(s.queue), SendChunk(s.fetcher));
  }

  lemma ChunkKeeps(s: State, step: Step)
    requires Shape(s) && ChunkInv(s) && Enabled(s, step)
    ensures ChunkInv(Apply(s, step))
  {
    if step.CheckDone? || step.Fetch? || step.Send? || step.Abandon? {
      FetcherChunks(s, step);
    } else if step.Take? {
      TakenChunks(s, Taken(s.queue[0].data, true), Apply(s, step));
    } else if step.TakePacket? {
      TakenChunks(s, Taken(s.queue[0].data, false), Apply(s, step));
    } else if step.Drain? {
      Regroup(Chunks(s.taken), QueueChunk(s.queue), SendChunk(s.fetcher));
    }
  }

  lemma StreamKeeps(s: State, step: Step)
    requires Shape(s) && StreamInv(s) && Enabled(s, step)
    ensures StreamInv(Apply(s, step))
  {
    var d, p := s.delivered, s.pending.data;
    match step
    case Take => TakenMore(s.taken, Taken(s.queue[0].data, true)); assert d + [] == d;
    case TakePacket => TakenMore(s.taken, Taken(s.queue[0].data, false));
    case Copy(n) => assert p[..n] + p[n..] == p; Assoc(d, p[..n], p[n..]);
    case Drain => assert d + [] <= d + p;
    case _ =>
  }

  // ---------------------------------------------------------------- theorems

  ghost predicate Inv(s: State) {
    Shape(s) && ChunkInv(s) && StreamInv(s) && ErrorInv(s) && forall l: nat :: LeaseInv(s, l)
  }

  lemma {:induction false} RunKeeps(s: State, steps: seq<Step>, end: State)
    requires Inv(s) && Reaches(s, steps, end)
    ensures Inv(end)
    decreases |steps|
  {
    if steps != [] {
      ShapeKeeps(s, steps[0]);
      ChunkKeeps(s, steps[0]);
      StreamKeeps(s, steps[0]);
      ErrorKeeps(s, steps[0]);
      forall l: nat ensures LeaseInv(Apply(s, steps[0]), l) {
        LeaseKeeps(s, steps[0], l);
      }
      RunKeeps(Apply(s, steps[0]), steps[1..], end);
    }
  }

  /** In every interleaving a lease is released at most once, never while a byte of its chunk can still
      be read; it is released or held by exactly one chunk; and once a close has drained, every lease
      was released exactly once. */
  lemma LeasesReleasedOnce(steps: seq<Step>, s: State, l: nat)
    requires Reaches(Initial, steps, s) && l < s.issued
    ensures s.released[l] + Held(s, l) == 1
    ensures s.pending.data != [] && l in s.pending.lease ==> s.released[l] == 0
    ensures s.drained ==> s.released[l] == 1
  {
    RunKeeps(Initial, steps, s);
    assert LeaseInv(s, l);
  }

  /** However Read and ReadPacket are mixed: chunks are taken in the order of fetching, and Read delivers
      the bytes of the chunks it took, in order.  Until the reader is closed no chunk and no byte is lost,
      whatever deadlines expire; and an error is stored only when everything fetched was taken, so Read
      reports it after the last byte. */
  lemma StreamInOrder(steps: seq<Step>, s: State)
    requires Reaches(Initial, steps, s)
    ensures Chunks(s.taken) <= s.fetched && s.delivered <= Stream(s.taken)
    ensures !s.done ==> Chunks(s.taken) + InFlight(s) == s.fetched && s.delivered + s.pending.data == Stream(s.taken)
    ensures !s.done && s.pending.err != 0 ==> Chunks(s.taken) == s.fetched
    ensures !s.done && s.pending.err != 0 && s.pending.data == [] ==> s.delivered == Stream(s.taken)
  {
    RunKeeps(Initial, steps, s);
    assert Chunks(s.taken) <= Chunks(s.taken) + InFlight(s) && s.delivered <= s.delivered + s.pending.data;
    assert s.delivered + [] == s.delivered && Chunks(s.taken) + [] == Chunks(s.taken);
  }

  /** When only Read is used, its chunks are all the chunks. */
  lemma {:induction false} OnlyRead(taken: seq<Taken>)
    requires forall i | 0 <= i < |taken| :: taken[i].stream
    ensures Stream(taken) == Flat(Chunks(taken))
  {
    if taken != [] {
      var front, last := taken[..|taken| - 1], taken[|taken| - 1];
      OnlyRead(front);
      assert front + [last] == taken;
      TakenMore(front, last);
      FlatPush(Chunks(front), last.data);
    }
  }

  // ---------------------------------------------------------------- progress

  /** The fetcher stops only for Close or an error, which is still to be reported or is stored. */
  ghost predicate Cause(s: State) {
    s.fetcher == Exited ==> s.done || s.pending.err != 0 || (s.queue != [] && s.queue[0].err != 0)
  }

  lemma {:induction false} CauseKept(s: State, steps: seq<Step>, end: State)
    requires Shape(s) && ErrorInv(s) && Cause(s) && Reaches(s, steps, end)
    ensures Cause(end)
    decreases |steps|
  {
    if steps != [] {
      ShapeKeeps(s, steps[0]);
      ErrorKeeps(s, steps[0]);
      CauseStep(s, steps[0]);
      CauseKept(Apply(s, steps[0]), steps[1..], end);
    }
  }

  lemma CauseStep(s: State, step: Step)
    requires Shape(s) && ErrorInv(s) && Cause(s) && Enabled(s, step)
    ensures Cause(Apply(s, step))
  {
  }

  /** The fetcher goes on until Close or an error: it fetches, and sends what it fetched once the queue has
      room.  A reader that holds the mutex copies what it has, or else takes what is queued. */
  lemma ReaderGoesOn(steps: seq<Step>, s: State)
    requires Reaches(Initial, steps, s)
    ensures s.fetcher == Exited ==> s.done || s.pending.err != 0 || (s.queue != [] && s.queue[0].err != 0)
    ensures s.fetcher == Top && !s.done ==> Enabled(s, CheckDone) && Apply(s, CheckDone).fetcher == Fetching
    ensures s.fetcher.Sending? && s.queue == [] ==> Enabled(s, Send) && Apply(s, Send).queue == [s.fetcher.item]
    ensures s.fetcher.Sending? && s.queue == [] && s.fetcher.item.err == 0 ==> Apply(s, Send).fetcher == Top
    ensures s.holder.Reading? && s.pending.data != [] ==>
      Enabled(s, Copy(Min(s.holder.want, |s.pending.data|)))
    ensures s.holder.Reading? && s.pending.data == [] && s.pending.err == 0 && s.queue != [] ==>
      Enabled(s, Take) && Apply(s, Take).pending == s.queue[0]
    ensures s.holder.Receiving? && s.queue != [] ==> Enabled(s, TakePacket)
  {
    CauseKept(Initial, steps, s);
  }
}
