/** A connection on which a network's events happen, and the buffered reads made of it. */
module Connection {
  import opened Octets
  import N = Network

  /** The connection: events in the order in which the network produces them. */
  class Source {
    var events: seq<N.Event>

    constructor (events: seq<N.Event>)
      ensures this.events == events
    {
      this.events := events;
    }

    /** io.ReadFull into `buf[from..upto]`. */
    method ReadFull(buf: array<byte>, from: nat, upto: nat) returns (n: nat, stop: N.Error)
      requires from <= upto <= buf.Length
      modifies this, buf
      ensures var f := N.ReadFull(old(events), upto - from);
        n == |f.got| && stop == f.stop && events == f.rest && buf[..from + n] == old(buf[..from]) + f.got
      decreases upto - from
    {
      n, stop := 0, N.None;
      if from < upto {
        ghost var was := buf[..from];
        stop := Next(buf, from);
        if stop == N.None {
          assert buf[..from + 1] == was + [buf[from]];
          n, stop := ReadFull(buf, from + 1, upto);
          n := n + 1;
        }
      }
    }

    /** One event: a byte is stored at `at`, anything else stops the reading. */
    method Next(buf: array<byte>, at: nat) returns (stop: N.Error)
      requires at < buf.Length
      modifies this, buf
      ensures buf[..at] == old(buf[..at])
      ensures old(events) == [] ==> stop == N.Timeout && events == []
      ensures old(events) != [] ==> events == old(events)[1..]
      ensures old(events) != [] ==>
        match old(events)[0]
        case Arrive(b) => stop == N.None && buf[at] == b
        case Expire => stop == N.Timeout
        case End => stop == N.UnexpectedEof
        case Fail(code) => stop == N.Transport(code)
    {
      if events == [] {
        return N.Timeout;
      }
      var event := events[0];
      events := events[1..];
      match event
      case Arrive(b) =>
        buf[at] := b;
        stop := N.None;
      case Expire => stop := N.Timeout;
      case End => stop := N.UnexpectedEof;
      case Fail(code) => stop := N.Transport(code);
    }

    /** bufio's ReadSlice up to a line feed. */
    method ReadSlice() returns (f: N.Fill)
      modifies this
      ensures f == N.ReadLine(old(events)) && events == f.rest
    {
      var got: Bytes := [];
      ghost var all := N.ReadLine(events);
      f := N.Fill([], N.Timeout, []);
      while events != []
        invariant all == N.ReadLine(events).(got := got + N.ReadLine(events).got)
        decreases |events|
      {
        var event := events[0];
        Assoc(got, if event.Arrive? then [event.b] else [], N.ReadLine(events[1..]).got);
        assert got + [] == got;
        events := events[1..];
        match event
        case Arrive(b) =>
          got := got + [b];
          if b == N.LF {
            return N.Fill(got, N.None, events);
          }
        case Expire => return N.Fill(got, N.Timeout, events);
        case End => return N.Fill(got, N.UnexpectedEof, events);
        case Fail(code) => return N.Fill(got, N.Transport(code), events);
      }
      assert got + [] == got;
      f := N.Fill(got, N.Timeout, []);
    }

    /** One Read of at most `most` bytes. */
    method ReadSome(most: nat) returns (f: N.Fill)
      modifies this
      ensures f == N.ReadSome(old(events), most) && events == f.rest
    {
      f := N.ReadSome(events, most);
      events := f.rest;
    }
  }
}
