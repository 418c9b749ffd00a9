/** Writer and reader together: what one side of a RawStream hands over and what the other side reads,
    for every run of calls, every failure downstream and every network in between. */
module RawStream {
  import opened Octets
  import opened RawRecord
  import opened Downstream
  import W = RawWriter
  import N = Network
  import R = RawReader

  /** The payloads a run of writer calls has sealed. */
  function SealedBy(c: Cipher, calls: seq<W.Call>, plan: seq<Took>): Log {
    W.Run(c, W.Fresh, calls, plan).w.sealed
  }

  function ReadBy(c: Cipher, wants: seq<nat>, events: seq<N.Event>): R.Outcome {
    R.Run(c, R.Fresh, wants, events)
  }

  /** `calls[k]` sealed the end marker, after everything handed over before it. */
  ghost predicate EndsAt(calls: seq<W.Call>, k: nat, log: Log) {
    && k < |calls|
    && calls[k].Eof?
    && Flat(log) == W.Handed(calls[..k])
  }

  predicate EndsEmpty(log: Log) { log != [] && log[|log| - 1] == [] }

  lemma LogShape(c: Cipher, calls: seq<W.Call>, plan: seq<Took>)
    ensures var log := SealedBy(c, calls, plan); Bounded(log) && R.Ending(log) && Flat(log) <= W.Handed(calls)
  {
    W.RunMeaning(c, calls, plan);
    MarkedShape(W.Run(c, W.Fresh, calls, plan).w);
  }

  lemma MarkedShape(w: W.Writer)
    requires W.Marked(w) && |w.sealed| <= MAX_SEQUENCE
    ensures Bounded(w.sealed) && R.Ending(w.sealed)
  {
    if !W.Filled(w.sealed) {
      var front := w.sealed[..|w.sealed| - 1];
      forall i | 0 <= i < |front| ensures 0 < |w.sealed[i]| <= MAX_PAYLOAD {
        assert front[i] == w.sealed[i];
      }
    }
  }

  /** One call leaves an end marker only if it was there before, or if the call is the one that ends an
      open stream. */
  lemma MarkerStep(c: Cipher, w: W.Writer, call: W.Call, plan: seq<Took>, handed: Bytes, counted: nat)
    requires W.RunInv(c, w, handed, counted)
    ensures var log := W.Step(c, w, call, plan).w.sealed;
      EndsEmpty(log) ==> (EndsEmpty(w.sealed) && log == w.sealed) || (call.Eof? && Flat(log) == handed)
  {
    if W.Stopped(w) {
      W.StoppedStep(c, w, call, plan);
    } else if call.Eof? {
      FlatPush(w.sealed, []);
    } else {
      W.BatchFills(c, w, Flat(call.slices), call.now, plan);
    }
  }

  /** Handing over stops at the end marker: it is the last record, and everything handed over before
      the call that sealed it precedes it. */
  lemma {:induction false} MarkerEnds(c: Cipher, calls: seq<W.Call>, plan: seq<Took>)
    ensures EndsEmpty(SealedBy(c, calls, plan)) ==> exists k: nat :: EndsAt(calls, k, SealedBy(c, calls, plan))
  {
    if calls != [] {
      var n := |calls| - 1;
      var front := calls[..n];
      var before, log := W.Run(c, W.Fresh, front, plan), SealedBy(c, calls, plan);
      MarkerEnds(c, front, plan);
      W.RunMeaning(c, front, plan);
      MarkerStep(c, before.w, calls[n], before.plan, W.Handed(front), before.n);
      if EndsEmpty(log) {
        if EndsEmpty(before.w.sealed) && log == before.w.sealed {
          var k: nat :| EndsAt(front, k, log);
          assert front[..k] == calls[..k];
          assert EndsAt(calls, k, log);
        } else {
          assert EndsAt(calls, n, log);
        }
      }
    }
  }

  /** Whatever the network delivers, what is read is an initial part of what was handed over; when the
      end is reported, it is everything handed over before the call that ended the stream. */
  lemma ReadIsPrefix(c: Cipher, calls: seq<W.Call>, plan: seq<Took>, wants: seq<nat>, events: seq<N.Event>)
    requires Ideal(c, SealedBy(c, calls, plan))
    ensures ReadBy(c, wants, events).out <= W.Handed(calls)
    ensures ReadBy(c, wants, events).err == N.Eof
      ==> exists k: nat ::
            EndsAt(calls, k, SealedBy(c, calls, plan)) && ReadBy(c, wants, events).out == W.Handed(calls[..k])
  {
    var log, o := SealedBy(c, calls, plan), ReadBy(c, wants, events);
    LogShape(c, calls, plan);
    R.RunKeeps(c, log, wants, events);
    PrefixOfPrefix(o.out, o.r.plain, Flat(log), W.Handed(calls));
    if o.err == N.Eof {
      R.EofMeansEnded(c, wants, events);
      assert o.out + [] == o.out;
      assert log[..|log|] == log;
      MarkerEnds(c, calls, plan);
    }
  }

  lemma PrefixOfPrefix(a: Bytes, b: Bytes, c: Bytes, d: Bytes)
    requires a + b <= c <= d
    ensures a <= d
  {
    assert a == (a + b)[..|a|] == c[..|a|] == d[..|a|];
  }

  /** When every flush succeeded and the network carries the bytes unchanged, one call per network event
      is enough to read everything that was sealed, which is everything handed over unless the stream
      was ended. */
  lemma RoundTrip(c: Cipher, calls: seq<W.Call>, plan: seq<Took>, wants: seq<nat>, events: seq<N.Event>)
    requires Opens(c, SealedBy(c, calls, plan))
    requires var w := W.Run(c, W.Fresh, calls, plan).w;
      w.flushed == |w.sealed| && N.Gentle(events) && N.Arrived(events) == w.wire
    requires |wants| >= |events| && forall i | 0 <= i < |wants| :: wants[i] > 0
    ensures var w, o := W.Run(c, W.Fresh, calls, plan).w, ReadBy(c, wants, events);
      && o.out == Flat(w.sealed)
      && (!W.Stopped(w) ==> o.out == W.Handed(calls))
      && (o.r.ended <==> EndsEmpty(w.sealed))
      && (o.r.ended ==> exists k: nat :: EndsAt(calls, k, w.sealed) && o.out == W.Handed(calls[..k]))
  {
    var w := W.Run(c, W.Fresh, calls, plan).w;
    W.RunMeaning(c, calls, plan);
    LogShape(c, calls, plan);
    MarkerEnds(c, calls, plan);
    assert w.sealed[..|w.sealed|] == w.sealed;
    R.ReadsEverything(c, w.sealed, wants, events);
  }

  // ---------------------------------------------------------------- the assumptions can be met

  lemma {:induction false} SamePump(c: Cipher, c': Cipher, p: W.Point, data: Bytes)
    requires c.seal == c'.seal
    ensures W.Pump(c, p, data) == W.Pump(c', p, data)
    decreases |data|
  {
    if data != [] {
      var n := W.Cut(data, p.w.burst);
      assert W.Emit(c, p, data[..n]) == W.Emit(c', p, data[..n]);
      SamePump(c, c', W.Emit(c, p, data[..n]), data[n..]);
    }
  }

  /** What a writer seals does not depend on how the cipher opens. */
  lemma {:induction false} SameRun(c: Cipher, c': Cipher, calls: seq<W.Call>, plan: seq<Took>)
    requires c.seal == c'.seal
    ensures W.Run(c, W.Fresh, calls, plan) == W.Run(c', W.Fresh, calls, plan)
  {
    if calls != [] {
      var front := calls[..|calls| - 1];
      SameRun(c, c', front, plan);
      var before := W.Run(c, W.Fresh, front, plan);
      match calls[|calls| - 1] {
        case Batch(slices, now) =>
          SamePump(c, c', W.Point(W.Burst(before.w, now), [], 0, 0, before.plan, W.None), Flat(slices));
        case Eof =>
      }
    }
  }

  /** For every run of a writer there is a cipher that opens exactly what that run sealed with it. */
  lemma IdealCipherExists(calls: seq<W.Call>, plan: seq<Took>)
    ensures exists c: Cipher :: Ideal(c, SealedBy(c, calls, plan)) && Opens(c, SealedBy(c, calls, plan))
  {
    var log := SealedBy(LogCipher([]), calls, plan);
    LogShape(LogCipher([]), calls, plan);
    SameRun(LogCipher([]), LogCipher(log), calls, plan);
    LogCipherIsIdeal(log);
    assert SealedBy(LogCipher(log), calls, plan) == log;
  }
}
