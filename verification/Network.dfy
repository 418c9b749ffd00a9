/** What a reader sees of a network: bytes, deadline expiries, an end and failures, in any order and in
    any fragments. */
module Network {
  import opened Octets

  datatype Event = Arrive(b: byte) | Expire | End | Fail(code: nat)

  /** What a read can report. */
  datatype Error = None | Timeout | UnexpectedEof | Transport(code: nat) | DecryptionFailed | TooLarge | Malformed | Eof

  /** What io.ReadFull returns: the bytes it got and why it stopped short, if it did. */
  datatype Fill = Fill(got: Bytes, stop: Error, rest: seq<Event>)

  function ReadFull(events: seq<Event>, want: nat): (f: Fill)
    ensures |f.got| <= want && (f.stop == None <==> |f.got| == want)
    ensures |f.rest| + |f.got| <= |events|
    ensures f.stop != None && events != [] ==> |f.rest| < |events|
    ensures f.stop != Eof
  {
    if want == 0 then Fill([], None, events)
    else if events == [] then Fill([], Timeout, [])
    else
      match events[0]
      case Arrive(b) =>
        var f := ReadFull(events[1..], want - 1);
        f.(got := [b] + f.got)
      case Expire => Fill([], Timeout, events[1..])
      case End => Fill([], UnexpectedEof, events[1..])
      case Fail(code) => Fill([], Transport(code), events[1..])
  }

  /** Only bytes and deadline expiries. */
  predicate Gentle(events: seq<Event>) {
    events == [] || ((events[0].Arrive? || events[0].Expire?) && Gentle(events[1..]))
  }

  function Arrived(events: seq<Event>): Bytes {
    if events == [] then []
    else (if events[0].Arrive? then [events[0].b] else []) + Arrived(events[1..])
  }

  lemma {:induction false} FillArrived(events: seq<Event>, want: nat)
    ensures var f := ReadFull(events, want); f.got + Arrived(f.rest) == Arrived(events)
  {
    if want > 0 && events != [] && events[0].Arrive? {
      FillArrived(events[1..], want - 1);
      var f := ReadFull(events[1..], want - 1);
      Assoc([events[0].b], f.got, Arrived(f.rest));
    }
  }

  lemma {:induction false} FillGentle(events: seq<Event>, want: nat)
    requires Gentle(events)
    ensures var f := ReadFull(events, want); Gentle(f.rest) && f.got + Arrived(f.rest) == Arrived(events)
  {
    FillArrived(events, want);
    if want > 0 && events != [] && events[0].Arrive? {
      FillGentle(events[1..], want - 1);
    }
  }

  lemma {:induction false} FillStops(events: seq<Event>, want: nat)
    requires Gentle(events)
    ensures var f := ReadFull(events, want);
      && Gentle(f.rest)
      && (f.stop == None || f.stop == Timeout)
      && (f.stop != None ==> f.rest == [] || |f.rest| + |f.got| < |events|)
  {
    if want > 0 && events != [] && events[0].Arrive? {
      FillStops(events[1..], want - 1);
    }
  }

  // ---------------------------------------------------------------- buffered reads

  /** What ReadSlice returns: the bytes up to and including a line feed, or those before it stopped. */
  function ReadLine(events: seq<Event>): (f: Fill)
    ensures f.stop == None ==> f.got != [] && f.got[|f.got| - 1] == LF
    ensures |f.rest| <= |events| && (events != [] ==> |f.rest| < |events|)
    ensures f.stop != Eof && f.stop != Malformed
  {
    if events == [] then Fill([], Timeout, [])
    else
      match events[0]
      case Arrive(b) =>
        if b == LF then Fill([b], None, events[1..])
        else
          var f := ReadLine(events[1..]);
          f.(got := [b] + f.got)
      case Expire => Fill([], Timeout, events[1..])
      case End => Fill([], UnexpectedEof, events[1..])
      case Fail(code) => Fill([], Transport(code), events[1..])
  }

  const LF: byte := 10

  /** At most `most` bytes of those that are there. */
  function Run(events: seq<Event>, most: nat): (f: Fill)
    ensures |f.got| <= most && f.stop == None && |f.rest| + |f.got| == |events|
    ensures most > 0 && events != [] && events[0].Arrive? ==> f.got != []
  {
    if most == 0 || events == [] || !events[0].Arrive? then Fill([], None, events)
    else
      var f := Run(events[1..], most - 1);
      f.(got := [events[0].b] + f.got)
  }

  /** One Read: some bytes, or what stopped it. */
  function ReadSome(events: seq<Event>, most: nat): (f: Fill)
    ensures |f.got| <= most && (events != [] && most > 0 ==> |f.rest| < |events|) && |f.rest| <= |events|
    ensures f.stop != Eof && f.stop != Malformed
  {
    if events == [] then Fill([], Timeout, [])
    else
      match events[0]
      case Arrive(_) => Run(events, most)
      case Expire => Fill([], Timeout, events[1..])
      case End => Fill([], UnexpectedEof, events[1..])
      case Fail(code) => Fill([], Transport(code), events[1..])
  }

  predicate NoLf(bytes: Bytes) { forall i | 0 <= i < |bytes| :: bytes[i] != LF }

  lemma {:induction false} LineArrived(events: seq<Event>)
    ensures var f := ReadLine(events);
      && f.got + Arrived(f.rest) == Arrived(events)
      && (f.stop != None ==> NoLf(f.got))
      && (f.stop == None ==> NoLf(f.got[..|f.got| - 1]))
  {
    if events != [] && events[0].Arrive? && events[0].b != LF {
      LineArrived(events[1..]);
      var f := ReadLine(events[1..]);
      Assoc([events[0].b], f.got, Arrived(f.rest));
    }
  }

  lemma {:induction false} RunArrived(events: seq<Event>, most: nat)
    ensures var f := Run(events, most); f.got + Arrived(f.rest) == Arrived(events)
  {
    if !(most == 0 || events == [] || !events[0].Arrive?) {
      RunArrived(events[1..], most - 1);
      var f := Run(events[1..], most - 1);
      Assoc([events[0].b], f.got, Arrived(f.rest));
    }
  }

  lemma SomeArrived(events: seq<Event>, most: nat)
    ensures var f := ReadSome(events, most); f.got + Arrived(f.rest) == Arrived(events)
  {
    RunArrived(events, most);
  }

  lemma {:induction false} LineGentle(events: seq<Event>)
    requires Gentle(events)
    ensures var f := ReadLine(events); Gentle(f.rest) && (f.stop == None || f.stop == Timeout)
  {
    if events != [] && events[0].Arrive? && events[0].b != LF {
      LineGentle(events[1..]);
    }
  }

  lemma {:induction false} RunGentle(events: seq<Event>, most: nat)
    requires Gentle(events)
    ensures Gentle(Run(events, most).rest)
  {
    if !(most == 0 || events == [] || !events[0].Arrive?) {
      RunGentle(events[1..], most - 1);
    }
  }

  lemma SomeGentle(events: seq<Event>, most: nat)
    requires Gentle(events)
    ensures var f := ReadSome(events, most); Gentle(f.rest) && (f.stop == None || f.stop == Timeout)
  {
    RunGentle(events, most);
  }
}
