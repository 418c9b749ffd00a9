/** bufferedPipe as it runs: a ring that is allocated on the first write, grows up to the capacity and
    moves bytes in runs that do not wrap.  Each turn is proved to be the turn of the bounded queue. */
module BytePipeRing {
  import opened Octets
  import opened Rings
  import P = BytePipe

  const FIRST := 16 * 1024

  function Max(a: nat, b: nat): nat { if a > b then a else b }

  lemma Onward(q: Bytes, rest: Bytes, n: nat, chunk: nat)
    requires n + chunk <= |rest|
    ensures q + rest[..n] + rest[n..n + chunk] == q + rest[..n + chunk]
  {
    assert rest[..n] + rest[n..n + chunk] == rest[..n + chunk];
    Assoc(q, rest[..n], rest[n..n + chunk]);
  }

  class BufferedPipe {
    var buf: array<byte>
    const capacity: nat
    var head: nat
    var tail: nat
    var count: nat
    var closed: bool
    var err: P.Error

    ghost predicate Valid()
      reads this, buf
    {
      && 0 < capacity && count <= buf.Length <= capacity
      && (buf.Length > 0 ==> head < buf.Length && tail == Slot(head, count, buf.Length))
    }

    ghost function Queue(): (q: Bytes)
      reads this, buf
      requires Valid()
      ensures |q| == count
    {
      if buf.Length == 0 then [] else Ring(buf[..], head, count)
    }

    ghost function State(): P.Pipe
      reads this, buf
      requires Valid()
    {
      P.Pipe(Queue(), capacity, closed, err)
    }

    constructor (capacity: int)
      ensures Valid() && this.capacity == (if capacity <= 0 then 128 * 1024 else capacity)
      ensures State() == P.Pipe([], this.capacity, false, P.None) && fresh(buf)
    {
      this.capacity := if capacity <= 0 then 128 * 1024 else capacity;
      buf := new byte[0];
      head, tail, count, closed, err := 0, 0, 0, false, P.None;
    }

    method CopyOut(b: array<byte>, n: nat, chunk: nat)
      requires head + chunk <= buf.Length && n + chunk <= b.Length && b != buf
      modifies b
      ensures b[..n] == old(b[..n]) && b[n..n + chunk] == buf[..][head..head + chunk]
    {
      forall i | 0 <= i < chunk {
        b[n + i] := buf[head + i];
      }
    }

    /** Copies a run of queued bytes out. */
    method TakeRun(b: array<byte>, n: nat) returns (chunk: nat)
      requires Valid() && count > 0 && n < b.Length && b != buf
      modifies b, this`head, this`count
      ensures Valid() && 0 < chunk <= b.Length - n && chunk <= old(count)
      ensures b[..n] == old(b[..n]) && b[n..n + chunk] == old(Queue())[..chunk] && Queue() == old(Queue())[chunk..]
    {
      chunk := b.Length - n;
      var avail := buf.Length - head;
      if avail > count {
        avail := count;
      }
      if chunk > avail {
        chunk := avail;
      }
      RingTake(buf[..], head, count, chunk);
      CopyOut(b, n, chunk);
      head := Wrapped(head, chunk, buf.Length);
      count := count - chunk;
    }

    /** One turn of a reader. */
    method Read(b: array<byte>) returns (n: nat, e: P.Error, waits: bool)
      requires Valid() && b != buf
      modifies b, this`head, this`count
      ensures Valid()
      ensures waits == P.Read(old(State()), b.Length).ReadWaits?
      ensures waits ==> State() == old(State())
      ensures !waits ==> n <= b.Length && P.ReadAnswers(State(), b[..n], e) == P.Read(old(State()), b.Length)
      // queued bytes first; then the error of the close, or the end; and it waits for bytes of an open pipe
      ensures waits <==> b.Length > 0 && old(count) == 0 && err == P.None && !closed
      ensures b.Length > 0 && old(count) > 0 ==>
        e == P.None && n == Min(b.Length, old(count)) && b[..n] == old(Queue())[..n]
      ensures b.Length > 0 && old(count) == 0 && err != P.None ==> n == 0 && e == err
      ensures b.Length > 0 && old(count) == 0 && err == P.None && closed ==> n == 0 && e == P.Eof
      ensures b.Length == 0 ==> n == 0 && e == P.None
    {
      n, e, waits := 0, P.None, false;
      if b.Length == 0 {
        return;
      }
      if count == 0 {
        if err != P.None {
          return 0, err, false;
        }
        if closed {
          return 0, P.Eof, false;
        }
        return 0, P.None, true;
      }
      n := Drain(b);
    }

    method Drain(b: array<byte>) returns (n: nat)
      requires Valid() && b != buf
      modifies b, this`head, this`count
      ensures Valid() && n == Min(b.Length, old(count))
      ensures b[..n] == old(Queue())[..n] && Queue() == old(Queue())[n..]
    {
      n := 0;
      ghost var q := Queue();
      while n < b.Length && count > 0
        invariant Valid() && n <= b.Length && n <= |q|
        invariant b[..n] == q[..n] && Queue() == q[n..]
        decreases count
      {
        var chunk := TakeRun(b, n);
        assert q[..n] + q[n..][..chunk] == q[..n + chunk] && q[n..][chunk..] == q[n + chunk..];
        assert b[..n + chunk] == b[..n] + b[n..n + chunk];
        n := n + chunk;
      }
    }

    /** Moves the queued bytes to a larger buffer. */
    method Grow(need: nat)
      requires Valid() && buf.Length < capacity && buf.Length < need
      modifies this`buf, this`head, this`tail
      ensures Valid() && Queue() == old(Queue()) && fresh(buf)
      ensures buf.Length >= Min(capacity, need)
    {
      var size := Min(capacity, Max(FIRST, Max(buf.Length * 2, need)));
      var grown := new byte[size](_ => 0);
      if count > 0 {
        CopyTo(grown);
        RingMoved(buf[..], head, count, grown[..]);
      }
      var end := Wrapped(0, count, size);
      buf, head, tail := grown, 0, end;
    }

    method CopyTo(grown: array<byte>)
      requires Valid() && 0 < count <= grown.Length && grown != buf
      modifies grown
      ensures forall k | 0 <= k < count :: grown[k] == Ring(buf[..], head, count)[k]
    {
      var first := Min(count, buf.Length - head);
      RingRuns(buf[..], head, count);
      forall i | 0 <= i < first {
        grown[i] := buf[head + i];
      }
      forall i | 0 <= i < count - first {
        grown[first + i] := buf[i];
      }
    }

    /** Copies a run of `rest` in, from position `n`. */
    method PutRun(rest: Bytes, n: nat) returns (chunk: nat)
      requires Valid() && n < |rest| && count < buf.Length
      modifies buf, this`tail, this`count
      ensures Valid() && 0 < chunk <= |rest| - n
      ensures Queue() == old(Queue()) + rest[n..n + chunk]
    {
      chunk := |rest| - n;
      var space := buf.Length - count;
      var avail := buf.Length - tail;
      if avail > space {
        avail := space;
      }
      if chunk > avail {
        chunk := avail;
      }
      ghost var before := buf[..];
      forall i | 0 <= i < chunk {
        buf[tail + i] := rest[n + i];
      }
      assert Overwrites(before, buf[..], tail, rest[n..n + chunk]);
      RingPut(before, buf[..], head, count, rest[n..n + chunk]);
      tail := Wrapped(tail, chunk, buf.Length);
      count := count + chunk;
    }

    /** One turn of a writer that has `rest` left to write. */
    method Write(rest: Bytes) returns (n: nat, e: P.Error, waits: bool)
      requires Valid()
      modifies this`buf, this`head, this`tail, this`count, buf
      ensures Valid() && (buf == old(buf) || fresh(buf))
      ensures P.WriteTurn(State(), n, e, waits) == P.Write(old(State()), rest)
      // an open pipe takes what its capacity allows, and the writer waits with the rest
      ensures rest != [] && err != P.None ==> n == 0 && e == err && !waits
      ensures rest != [] && err == P.None && closed ==> n == 0 && e == P.ClosedPipe && !waits
      ensures rest != [] && err == P.None && !closed ==>
        e == P.None && n == Min(|rest|, capacity - old(count)) && (waits <==> n < |rest|)
        && Queue() == old(Queue()) + rest[..n]
    {
      n, e, waits := 0, P.None, false;
      if |rest| == 0 {
        return;
      }
      if err != P.None {
        return 0, err, false;
      }
      if closed {
        return 0, P.ClosedPipe, false;
      }
      n, waits := Fill(rest);
    }

    method Fill(rest: Bytes) returns (n: nat, waits: bool)
      requires Valid()
      modifies this`buf, this`head, this`tail, this`count, buf
      ensures Valid() && (buf == old(buf) || fresh(buf))
      ensures n == Min(|rest|, capacity - old(count)) && waits == (n < |rest|)
      ensures Queue() == old(Queue()) + rest[..n]
    {
      n, waits := 0, false;
      while n < |rest|
        invariant Valid() && (buf == old(buf) || fresh(buf))
        invariant n <= |rest| && Queue() == old(Queue()) + rest[..n]
        decreases |rest| - n
      {
        var chunk := PutSome(rest, n);
        if chunk == 0 {
          return n, true;
        }
        Onward(old(Queue()), rest, n, chunk);
        n := n + chunk;
      }
    }

    /** Makes room if the buffer may still grow, and puts a run unless the pipe is full. */
    method PutSome(rest: Bytes, n: nat) returns (chunk: nat)
      requires Valid() && n < |rest|
      modifies this`buf, this`head, this`tail, this`count, buf
      ensures Valid() && (buf == old(buf) || fresh(buf))
      ensures chunk <= |rest| - n && Queue() == old(Queue()) + rest[n..n + chunk]
      ensures chunk == 0 <==> old(count) == capacity
    {
      if buf.Length < capacity && count + |rest| - n > buf.Length {
        Grow(count + |rest| - n);
      }
      if count == buf.Length {
        return 0;
      }
      chunk := PutRun(rest, n);
    }

    method Close()
      requires Valid()
      modifies this`closed
      ensures Valid() && State() == old(State()).(closed := true)
    {
      closed := true;
    }

    /** CloseWithError of either end; `default` stands for a missing error. */
    method CloseWithError(given: P.Error, default: P.Error)
      requires Valid() && default != P.None
      modifies this`closed, this`err
      ensures Valid() && State() == P.CloseWith(old(State()), if given == P.None then default else given)
    {
      if err == P.None {
        err := if given == P.None then default else given;
      }
      closed := true;
    }
  }
}
