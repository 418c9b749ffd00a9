/** What the chunked reader delivers, for every encoding, cut, timing and fragmentation. */
module ChunkedProof {
  import opened Octets
  import opened Network
  import opened ChunkedCoding

  // ---------------------------------------------------------------- lines

  /** The first line of `h CRLF tail` ends after `h`. */
  lemma FirstLine(h: Bytes, tail: Bytes, t: Bytes, u: Bytes)
    requires NoLf(h) && t + u == h + (CRLF + tail)
    ensures NoLf(t) ==> |t| < |h| + 2
    ensures t != [] && t[|t| - 1] == LF && NoLf(t[..|t| - 1]) ==> t == h + CRLF && u == tail
  {
    var s := t + u;
    assert s[|h| + 1] == LF;
    assert forall i | 0 <= i <= |h| :: s[i] != LF;
    if |t| >= |h| + 2 {
      assert t[|h| + 1] == LF;
    }
    if t != [] && t[|t| - 1] == LF && NoLf(t[..|t| - 1]) {
      assert s[|t| - 1] == LF;
      var front := t[..|t| - 1];
      assert forall i | 0 <= i < |front| :: front[i] == s[i];
      assert t + u == (h + CRLF) + tail;
      Cancel(t, h + CRLF, u, tail);
    }
  }

  /** `ahead` is what arrives and what was cut off. */
  function Ahead(events: seq<Event>, cut: Bytes): Bytes { Arrived(events) + cut }

  lemma LineSync(partial: Bytes, events: seq<Event>, cut: Bytes, h: Bytes, tail: Bytes, limit: int)
    requires NoLf(partial) && NoLf(h) && |h| + 2 <= limit
    requires partial + Ahead(events, cut) == h + (CRLF + tail)
    ensures var l := Line(partial, events, limit);
      && l.err != Malformed && l.err != Eof
      && (l.err == None ==> l.line == h && l.partial == [] && Ahead(l.rest, cut) == tail)
      && (l.err != None ==> NoLf(l.partial) && l.partial + Ahead(l.rest, cut) == h + (CRLF + tail))
  {
    var f := ReadLine(events);
    var all := partial + f.got;
    LineArrived(events);
    Assoc(f.got, Arrived(f.rest), cut);
    Assoc(partial, f.got, Ahead(f.rest, cut));
    FirstLine(h, tail, all, Ahead(f.rest, cut));
    if f.stop == None {
      assert all[|all| - 1] == f.got[|f.got| - 1];
      assert all[..|all| - 1] == partial + f.got[..|f.got| - 1];
    }
  }

  // ---------------------------------------------------------------- where the reader is

  predicate Going(r: Reader) { r.terminal == None && !r.ended && r.trailerBytes == 0 && r.trailerLines == 0 }

  ghost predicate AtCrlf(r: Reader, todo: seq<Bytes>, ahead: Bytes) {
    && r.needCrlf && r.left == 0 && !r.trailers && r.partial == [] && |r.crlf| < 2
    && r.crlf + ahead == CRLF + Encoded(todo)
  }

  ghost predicate AtSize(r: Reader, todo: seq<Bytes>, ahead: Bytes) {
    && !r.needCrlf && r.crlf == [] && r.left == 0 && !r.trailers && NoLf(r.partial)
    && r.partial + ahead == Encoded(todo)
  }

  /** The first of `todo` is the part of the current chunk that is still to come. */
  ghost predicate AtData(r: Reader, todo: seq<Bytes>, ahead: Bytes) {
    && !r.needCrlf && r.crlf == [] && r.left > 0 && !r.trailers && r.partial == []
    && todo != [] && |todo[0]| == r.left
    && ahead == todo[0] + (CRLF + Encoded(todo[1..]))
  }

  ghost predicate AtTrailer(r: Reader, todo: seq<Bytes>, ahead: Bytes) {
    && !r.needCrlf && r.crlf == [] && r.left == 0 && r.trailers && NoLf(r.partial)
    && todo == [] && r.partial + ahead == CRLF
  }

  ghost predicate Sync(r: Reader, todo: seq<Bytes>, ahead: Bytes) {
    && Going(r) && Writable(todo)
    && (AtCrlf(r, todo, ahead) || AtSize(r, todo, ahead) || AtData(r, todo, ahead) || AtTrailer(r, todo, ahead))
  }

  /** How a call may leave the reader: at the end of a whole encoding, stopped for good, or in step. */
  ghost predicate Leaves(s: Stage, todo: seq<Bytes>, cut: Bytes) {
    && s.Answer?
    && s.err != Malformed
    && (s.r.ended <==> s.err == Eof)
    && (s.r.terminal != None ==> s.r.terminal == s.err)
    && (s.r.ended ==> todo == [] && cut == [] && s.r.terminal == None)
    && (!s.r.ended && s.r.terminal == None ==> Sync(s.r, todo, Ahead(s.rest, cut)))
  }

  lemma CrlfStage(r: Reader, todo: seq<Bytes>, events: seq<Event>, cut: Bytes)
    requires Going(r) && Writable(todo) && AtCrlf(r, todo, Ahead(events, cut))
    ensures var s := ReadCrlf(r, events);
      && (s.Go? ==> Going(s.r) && AtSize(s.r, todo, Ahead(s.rest, cut)))
      && (s.Answer? ==> s.out == [] && Leaves(s, todo, cut))
  {
    var f := ReadFull(events, 2 - |r.crlf|);
    var all := r.crlf + f.got;
    FillArrived(events, 2 - |r.crlf|);
    Assoc(f.got, Arrived(f.rest), cut);
    Assoc(r.crlf, f.got, Ahead(f.rest, cut));
    if f.stop == None {
      Cancel(all, CRLF, Ahead(f.rest, cut), Encoded(todo));
      assert [] + Ahead(f.rest, cut) == Ahead(f.rest, cut);
    }
  }

  /** The size line of the next chunk, or of the last one. */
  function NextSize(todo: seq<Bytes>): nat { if todo == [] then 0 else |todo[0]| }

  function AfterSize(todo: seq<Bytes>): Bytes {
    if todo == [] then CRLF else todo[0] + (CRLF + Encoded(todo[1..]))
  }

  lemma EncodedParts(todo: seq<Bytes>)
    ensures Encoded(todo) == Hex(NextSize(todo)) + (CRLF + AfterSize(todo))
  {
    if todo != [] {
      var h, data, rest := Hex(|todo[0]|), todo[0], Encoded(todo[1..]);
      Assoc(h, CRLF + (data + CRLF), rest);
      Assoc(CRLF, data + CRLF, rest);
      Assoc(data, CRLF, rest);
    }
  }

  lemma SizeStage(r: Reader, todo: seq<Bytes>, events: seq<Event>, cut: Bytes)
    requires Going(r) && Writable(todo) && AtSize(r, todo, Ahead(events, cut))
    ensures var s := ReadSize(r, events);
      && (s.Go? ==> Going(s.r) && (AtData(s.r, todo, Ahead(s.rest, cut)) || AtTrailer(s.r, todo, Ahead(s.rest, cut))))
      && (s.Answer? ==> s.out == [] && Leaves(s, todo, cut))
  {
    var size := NextSize(todo);
    EncodedParts(todo);
    SizeParses(size);
    LineSync(r.partial, events, cut, Hex(size), AfterSize(todo), MAX_CHUNK_LINE);
    assert [] + CRLF == CRLF;
  }

  lemma TrailerStage(r: Reader, todo: seq<Bytes>, events: seq<Event>, cut: Bytes, valid: Bytes -> bool)
    requires Going(r) && AtTrailer(r, todo, Ahead(events, cut))
    ensures var s := ReadTrailers(r, events, valid); s.Answer? && s.out == [] && Leaves(s, todo, cut)
  {
    assert [] + (CRLF + []) == CRLF;
    LineSync(r.partial, events, cut, [], [], MAX_LINE);
    var l := Line(r.partial, events, MAX_LINE);
    if l.err == None {
      assert |Arrived(l.rest) + cut| == 0;
    }
  }

  /** What is still to come after `n` bytes of the current chunk. */
  function Rest(todo: seq<Bytes>, n: nat): seq<Bytes> {
    if n == 0 || todo == [] then todo
    else if n >= |todo[0]| then todo[1..]
    else [todo[0][n..]] + todo[1..]
  }

  lemma RestConcat(todo: seq<Bytes>, n: nat)
    requires todo != [] && n <= |todo[0]| && Writable(todo)
    ensures todo[0][..n] + Flat(Rest(todo, n)) == Flat(todo) && Writable(Rest(todo, n))
  {
    var data, later := todo[0], todo[1..];
    if n == 0 {
      assert data[..0] + Flat(todo) == Flat(todo);
    } else if n < |data| {
      assert ([data[n..]] + later)[1..] == later;
      Assoc(data[..n], data[n..], Flat(later));
      assert data[..n] + data[n..] == data;
    } else {
      assert data[..n] == data;
    }
  }

  /** What is read of a chunk is its first bytes. */
  lemma TakesFront(events: seq<Event>, cut: Bytes, data: Bytes, after: Bytes, most: nat)
    requires Ahead(events, cut) == data + after && most <= |data|
    ensures var f := ReadSome(events, most);
      f.got == data[..|f.got|] && Ahead(f.rest, cut) == data[|f.got|..] + after
  {
    var f := ReadSome(events, most);
    var n := |f.got|;
    SomeArrived(events, most);
    Assoc(f.got, Arrived(f.rest), cut);
    Assoc(data[..n], data[n..], after);
    assert data[..n] + data[n..] == data;
    Cancel(f.got, data[..n], Ahead(f.rest, cut), data[n..] + after);
  }

  lemma DataStage(r: Reader, todo: seq<Bytes>, want: nat, fragment: nat, events: seq<Event>, cut: Bytes)
    requires Going(r) && Writable(todo) && AtData(r, todo, Ahead(events, cut)) && want > 0
    ensures var s := ReadData(r, want, fragment, events);
      && s.Answer? && s.out + Flat(Rest(todo, |s.out|)) == Flat(todo)
      && Leaves(s, Rest(todo, |s.out|), cut)
  {
    var most := if want < r.left then want else r.left;
    var step := if 0 < fragment < most then fragment else most;
    var f := ReadSome(events, step);
    TakesFront(events, cut, todo[0], CRLF + Encoded(todo[1..]), step);
    RestConcat(todo, |f.got|);
    DataSync(r, todo, |f.got|, Ahead(f.rest, cut));
  }

  lemma DataSync(r: Reader, todo: seq<Bytes>, n: nat, ahead: Bytes)
    requires Going(r) && Writable(todo) && r.left > 0 && !r.needCrlf && r.crlf == [] && !r.trailers && r.partial == []
    requires todo != [] && |todo[0]| == r.left && n <= r.left && Writable(Rest(todo, n))
    requires ahead == todo[0][n..] + (CRLF + Encoded(todo[1..]))
    ensures Sync(r.(left := r.left - n, needCrlf := r.left == n), Rest(todo, n), ahead)
  {
    var r' := r.(left := r.left - n, needCrlf := r.left == n);
    if n == r.left {
      assert [] + (CRLF + Encoded(todo[1..])) == CRLF + Encoded(todo[1..]);
      assert [] + ahead == ahead;
      assert AtCrlf(r', todo[1..], ahead);
    } else if n == 0 {
      assert todo[0][0..] == todo[0];
      assert AtData(r', todo, ahead);
    } else {
      var rest := Rest(todo, n);
      assert rest[0] == todo[0][n..] && rest[1..] == todo[1..];
      assert AtData(r', rest, ahead);
    }
  }

  // ---------------------------------------------------------------- one call

  /** From the size line on. */
  function FromSize(r: Reader, call: Call, events: seq<Event>, valid: Bytes -> bool): Stage {
    var b := ReadSize(r, events);
    if b.Answer? then b else FromTrailer(b.r, call, b.rest, valid)
  }

  function FromTrailer(r: Reader, call: Call, events: seq<Event>, valid: Bytes -> bool): Stage {
    var c := ReadTrailers(r, events, valid);
    if c.Answer? then c else ReadData(c.r, call.want, call.fragment, c.rest)
  }

  /** The call delivers an initial part of what is to come and leaves the reader in step with the rest. */
  ghost predicate Delivers(s: Stage, todo: seq<Bytes>, cut: Bytes) {
    && s.Answer?
    && s.out + Flat(Rest(todo, |s.out|)) == Flat(todo)
    && Leaves(s, Rest(todo, |s.out|), cut)
  }

  lemma Silent(s: Stage, todo: seq<Bytes>, cut: Bytes)
    requires s.Answer? && s.out == [] && Leaves(s, todo, cut)
    ensures Delivers(s, todo, cut)
  {
    assert [] + Flat(todo) == Flat(todo);
  }

  lemma TrailerDelivers(r: Reader, todo: seq<Bytes>, call: Call, events: seq<Event>, cut: Bytes, valid: Bytes -> bool)
    requires Going(r) && Writable(todo) && call.want > 0
    requires AtData(r, todo, Ahead(events, cut)) || AtTrailer(r, todo, Ahead(events, cut))
    ensures Delivers(FromTrailer(r, call, events, valid), todo, cut)
  {
    if r.trailers {
      TrailerStage(r, todo, events, cut, valid);
      Silent(ReadTrailers(r, events, valid), todo, cut);
    } else {
      DataStage(r, todo, call.want, call.fragment, events, cut);
    }
  }

  lemma SizeDelivers(r: Reader, todo: seq<Bytes>, call: Call, events: seq<Event>, cut: Bytes, valid: Bytes -> bool)
    requires Going(r) && Writable(todo) && call.want > 0
    requires AtSize(r, todo, Ahead(events, cut))
    ensures Delivers(FromSize(r, call, events, valid), todo, cut)
  {
    SizeStage(r, todo, events, cut);
    var s := ReadSize(r, events);
    if s.Answer? {
      Silent(s, todo, cut);
    } else {
      TrailerDelivers(s.r, todo, call, s.rest, cut, valid);
    }
  }

  lemma ReadDelivers(r: Reader, todo: seq<Bytes>, call: Call, events: seq<Event>, cut: Bytes, valid: Bytes -> bool)
    requires Sync(r, todo, Ahead(events, cut)) && call.want > 0
    ensures Delivers(Read(r, call, events, valid), todo, cut)
  {
    if r.needCrlf {
      CrlfStage(r, todo, events, cut);
      var s := ReadCrlf(r, events);
      if s.Answer? {
        Silent(s, todo, cut);
      } else {
        assert Read(r, call, events, valid) == FromSize(s.r, call, s.rest, valid);
        SizeDelivers(s.r, todo, call, s.rest, cut, valid);
      }
    } else if r.left == 0 && !r.trailers {
      assert Read(r, call, events, valid) == FromSize(r, call, events, valid);
      SizeDelivers(r, todo, call, events, cut, valid);
    } else {
      assert Read(r, call, events, valid) == FromTrailer(r, call, events, valid);
      TrailerDelivers(r, todo, call, events, cut, valid);
    }
  }

  // ---------------------------------------------------------------- every run

  /** After the calls: what was delivered, what is to come, and where the reader stands. */
  ghost predicate Run(s: Stage, writes: seq<Bytes>, todo: seq<Bytes>, cut: Bytes) {
    && s.Answer?
    && s.out + Flat(todo) == Flat(writes)
    && (s.r.ended ==> todo == [] && cut == [] && s.r.terminal == None)
    && (!s.r.ended && s.r.terminal == None ==> Sync(s.r, todo, Ahead(s.rest, cut)))
    && s.r.terminal != Malformed && s.r.terminal != Eof
  }

  /** The part of the writes that is to come after the calls. */
  ghost function ToCome(r: Reader, writes: seq<Bytes>, calls: seq<Call>, events: seq<Event>,
                        valid: Bytes -> bool): seq<Bytes> {
    if calls == [] then writes
    else
      var front := calls[..|calls| - 1];
      var before := Reads(r, front, events, valid);
      if before.Go? then writes
      else
        var s := Read(before.r, calls[|calls| - 1], before.rest, valid);
        if s.Go? then writes else Rest(ToCome(r, writes, front, events, valid), |s.out|)
  }

  lemma StepRuns(before: Stage, call: Call, writes: seq<Bytes>, todo: seq<Bytes>, cut: Bytes, valid: Bytes -> bool)
    requires Run(before, writes, todo, cut)
    ensures var s := Read(before.r, call, before.rest, valid);
      s.Answer? && Run(s.(out := before.out + s.out), writes, Rest(todo, |s.out|), cut) && s.err != Malformed
      && (s.err == Eof ==> s.r.ended)
  {
    var s := Read(before.r, call, before.rest, valid);
    if call.want > 0 && before.r.terminal == None && !before.r.ended {
      ReadDelivers(before.r, todo, call, before.rest, cut, valid);
      Assoc(before.out, s.out, Flat(Rest(todo, |s.out|)));
    } else {
      assert before.out + [] == before.out;
    }
  }

  lemma {:induction false} RunsInStep(writes: seq<Bytes>, cut: Bytes, calls: seq<Call>, events: seq<Event>,
                                      valid: Bytes -> bool)
    requires Writable(writes) && Ahead(events, cut) == Encoded(writes)
    ensures var s := Reads(Fresh, calls, events, valid);
      && Run(s, writes, ToCome(Fresh, writes, calls, events, valid), cut)
      && s.err != Malformed && (s.err == Eof ==> s.r.ended)
  {
    if calls == [] {
      assert [] + Flat(writes) == Flat(writes);
      assert [] + Encoded(writes) == Encoded(writes);
    } else {
      var front := calls[..|calls| - 1];
      RunsInStep(writes, cut, front, events, valid);
      var toCome := ToCome(Fresh, writes, front, events, valid);
      StepRuns(Reads(Fresh, front, events, valid), calls[|calls| - 1], writes, toCome, cut, valid);
    }
  }

  /** Whatever arrives of the encoding, however it is cut, delayed, fragmented and broken off: what is
      delivered is an initial part of what was written, nothing is found malformed, and the end is
      reported only when nothing was cut off and everything was delivered. */
  lemma PrefixOfWritten(writes: seq<Bytes>, cut: Bytes, calls: seq<Call>, events: seq<Event>, valid: Bytes -> bool)
    requires Writable(writes) && Arrived(events) + cut == Encoded(writes)
    ensures var s := Reads(Fresh, calls, events, valid);
      && s.Answer? && s.out <= Flat(writes) && s.err != Malformed
      && (s.err == Eof ==> cut == [] && s.out == Flat(writes))
  {
    RunsInStep(writes, cut, calls, events, valid);
    var s := Reads(Fresh, calls, events, valid);
    assert s.out + [] == s.out;
  }

  // ---------------------------------------------------------------- everything is read

  lemma {:induction false} TrailersConsume(r: Reader, events: seq<Event>, valid: Bytes -> bool)
    requires r.trailers
    ensures var s := ReadTrailers(r, events, valid); |s.rest| <= |events| && (events != [] ==> |s.rest| < |events|)
    decreases |events|
  {
    var s := TrailerLine(r, events, valid);
    if s.Go? {
      TrailersConsume(s.r, s.rest, valid);
    }
  }

  lemma CrlfConsumes(r: Reader, events: seq<Event>)
    requires |r.crlf| < 2
    ensures var s := ReadCrlf(r, events);
      && |s.rest| <= |events| && (r.needCrlf && events != [] ==> |s.rest| < |events|)
      && (!r.needCrlf ==> s == Go(r, events))
  {
  }

  lemma SizeConsumes(r: Reader, events: seq<Event>)
    ensures var s := ReadSize(r, events);
      |s.rest| <= |events| && (r.left == 0 && !r.trailers && events != [] ==> |s.rest| < |events|)
  {
  }

  /** A call that is not answered at once uses up an event, if there is one. */
  lemma ReadConsumes(r: Reader, call: Call, events: seq<Event>, valid: Bytes -> bool, todo: seq<Bytes>, cut: Bytes)
    requires Sync(r, todo, Ahead(events, cut)) && call.want > 0
    ensures var s := Read(r, call, events, valid); |s.rest| <= |events| && (events != [] ==> |s.rest| < |events|)
  {
    CrlfConsumes(r, events);
    var a := ReadCrlf(r, events);
    if a.Go? {
      SizeConsumes(a.r, a.rest);
      var b := ReadSize(a.r, a.rest);
      if b.Go? && b.r.trailers {
        TrailersConsume(b.r, b.rest, valid);
      }
    }
  }

  /** Without an end or a failure nothing is permanent but the end of the encoding. */
  ghost predicate Mild(s: Stage) {
    Gentle(s.rest) && (s.Answer? && s.err != Malformed ==> s.r.terminal == None)
  }

  lemma TakeCrlfMild(r: Reader, f: Fill)
    requires r.terminal == None && Gentle(f.rest) && (f.stop == None || f.stop == Timeout)
    ensures Mild(TakeCrlf(r, f)) && (TakeCrlf(r, f).Go? ==> TakeCrlf(r, f).r.terminal == None)
  {
  }

  lemma CrlfMild(r: Reader, events: seq<Event>)
    requires r.terminal == None && Gentle(events)
    ensures Mild(ReadCrlf(r, events)) && (ReadCrlf(r, events).Go? ==> ReadCrlf(r, events).r.terminal == None)
  {
    if r.needCrlf {
      var want := if |r.crlf| < 2 then 2 - |r.crlf| else 0;
      FillStops(events, want);
      TakeCrlfMild(r, ReadFull(events, want));
      assert ReadCrlf(r, events) == TakeCrlf(r, ReadFull(events, want));
    }
  }

  lemma TakeSizeMild(r: Reader, l: LineRead)
    requires r.terminal == None && Gentle(l.rest) && (l.err == None || l.err == Timeout || l.err == Malformed)
    ensures Mild(TakeSize(r, l)) && (TakeSize(r, l).Go? ==> TakeSize(r, l).r.terminal == None)
  {
  }

  lemma SizeMild(r: Reader, events: seq<Event>)
    requires r.terminal == None && Gentle(events)
    ensures Mild(ReadSize(r, events)) && (ReadSize(r, events).Go? ==> ReadSize(r, events).r.terminal == None)
  {
    LineGentle(events);
    TakeSizeMild(r, Line(r.partial, events, MAX_CHUNK_LINE));
  }

  lemma TrailerLineMild(r: Reader, events: seq<Event>, valid: Bytes -> bool)
    requires r.terminal == None && Gentle(events)
    ensures Mild(TrailerLine(r, events, valid))
  {
    LineGentle(events);
  }

  lemma {:induction false} TrailersMild(r: Reader, events: seq<Event>, valid: Bytes -> bool)
    requires r.terminal == None && Gentle(events)
    ensures Mild(ReadTrailers(r, events, valid))
    ensures ReadTrailers(r, events, valid).Go? ==> ReadTrailers(r, events, valid).r.terminal == None
    decreases |events|
  {
    TrailerLineMild(r, events, valid);
    var s := TrailerLine(r, events, valid);
    if r.trailers && s.Go? {
      TrailersMild(s.r, s.rest, valid);
    }
  }

  lemma DataMild(r: Reader, call: Call, events: seq<Event>)
    requires r.terminal == None && Gentle(events)
    ensures Mild(ReadData(r, call.want, call.fragment, events))
  {
    var most := if call.want < r.left then call.want else r.left;
    SomeGentle(events, if 0 < call.fragment < most then call.fragment else most);
  }

  lemma ReadMild(r: Reader, call: Call, events: seq<Event>, valid: Bytes -> bool)
    requires r.terminal == None && Gentle(events)
    ensures Mild(Read(r, call, events, valid))
  {
    if call.want > 0 && !r.ended {
      CrlfMild(r, events);
      var a := ReadCrlf(r, events);
      if a.Go? {
        SizeMild(a.r, a.rest);
        var b := ReadSize(a.r, a.rest);
        if b.Go? {
          TrailersMild(b.r, b.rest, valid);
          var c := ReadTrailers(b.r, b.rest, valid);
          if c.Go? {
            DataMild(c.r, call, c.rest);
          }
        }
      }
    }
  }

  /** A reader in step is never at the end of what is ahead. */
  lemma MoreAhead(r: Reader, todo: seq<Bytes>, ahead: Bytes)
    requires Sync(r, todo, ahead)
    ensures ahead != []
  {
    EncodedParts(todo);
    assert Encoded(todo)[|Hex(NextSize(todo))| + 1] == LF && CRLF[1] == LF;
    assert r.partial + [] == r.partial && r.crlf + [] == r.crlf;
  }

  lemma {:induction false} RunsOut(writes: seq<Bytes>, calls: seq<Call>, events: seq<Event>, valid: Bytes -> bool)
    requires Writable(writes) && Gentle(events) && Arrived(events) == Encoded(writes)
    requires forall i | 0 <= i < |calls| :: calls[i].want > 0
    ensures var s := Reads(Fresh, calls, events, valid);
      && s.Answer? && Gentle(s.rest) && s.r.terminal == None
      && (s.r.ended || s.rest == [] || |s.rest| + |calls| <= |events|)
  {
    if calls != [] {
      var n := |calls| - 1;
      RunsOut(writes, calls[..n], events, valid);
      assert Arrived(events) + [] == Arrived(events);
      RunsInStep(writes, [], calls[..n], events, valid);
      var before := Reads(Fresh, calls[..n], events, valid);
      ReadMild(before.r, calls[n], before.rest, valid);
      StepRuns(before, calls[n], writes, ToCome(Fresh, writes, calls[..n], events, valid), [], valid);
      if !before.r.ended {
        ReadConsumes(before.r, calls[n], before.rest, valid, ToCome(Fresh, writes, calls[..n], events, valid), []);
      }
    }
  }

  /** Round trip: when the whole encoding arrives, in any fragments and with any deadline expiries, one
      call per network event delivers exactly what was written and comes to the end. */
  lemma RoundTrip(writes: seq<Bytes>, calls: seq<Call>, events: seq<Event>, valid: Bytes -> bool)
    requires Writable(writes) && Gentle(events) && Arrived(events) == Encoded(writes)
    requires |calls| >= |events| && forall i | 0 <= i < |calls| :: calls[i].want > 0
    ensures var s := Reads(Fresh, calls, events, valid);
      s.Answer? && s.out == Flat(writes) && s.r.ended && s.r.terminal == None
  {
    RunsOut(writes, calls, events, valid);
    assert Arrived(events) + [] == Arrived(events);
    RunsInStep(writes, [], calls, events, valid);
    var s := Reads(Fresh, calls, events, valid);
    if !s.r.ended {
      MoreAhead(s.r, ToCome(Fresh, writes, calls, events, valid), Ahead(s.rest, []));
    }
    assert s.out + [] == s.out;
  }
}
