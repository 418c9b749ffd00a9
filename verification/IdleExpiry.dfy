/** Idle clean-up of windows that have no durable cache behind them: the 65 s registry expiry of
    integration/xray/udp_replay.go and the 60 s session cleaner of pkg/server/plain_udp.go.  Neither
    forgets a window while a datagram it accepted can still pass the freshness check. */
module IdleExpiry {
  import opened Clock
  import opened NonceCache
  import opened ReplayBitmap
  import opened Admission

  const MAX_SESSIONS := 10_000

  datatype Policy = Registry | Cleaner

  /** How stale the instant passed to an accept may be. The registry's caller reads the clock before
      taking the lock; the session worker reads it while holding the session. */
  function Lag(p: Policy): Time { if p.Registry? then 2 * SECOND else 0 }

  /** `last` is None until the window has accepted something. */
  predicate Idle(p: Policy, last: Option<Time>, at: Time) {
    last.None? || (if p.Registry? then at - last.value > 65 * SECOND else Unix(at) - Unix(last.value) > 60)
  }

  datatype Entry = Entry(seen: set<Seq64>, last: Option<Time>)

  type Table = map<Seq64, Entry>

  // ---------------------------------------------------------------- specification of the table

  /** accept: the entry is created first, and only then is the datagram judged, with its timestamp if the
      caller has one. */
  function Accepting(t: Table, limit: nat, id: Seq64, seqno: Seq64, ts: Option<Seq64>,
                     now: Time, stamp: Time): (Table, bool) {
    if id !in t && |t| >= limit then (t, false)
    else
      var e := if id in t then t[id] else Entry({}, None);
      if (ts.Some? ==> Fresh(ts.value, now)) && Admits(e.seen, seqno)
      then (t[id := Entry(e.seen + {seqno}, Some(stamp))], true)
      else (t[id := e], false)
  }

  function Expiring(p: Policy, t: Table, at: Time): Table {
    map id | id in t && !Idle(p, t[id].last, at) :: t[id]
  }

  /** udpReplayRegistry; each window is used through its specification. */
  class UDPReplayRegistry {
    var entries: Table
    var closed: bool

    method Accept(id: Seq64, seqno: Seq64, ts: Option<Seq64>, now: Time) returns (ok: bool)
      modifies this
      ensures closed == old(closed)
      ensures closed ==> !ok && entries == old(entries)
      ensures !closed ==> (entries, ok) == Accepting(old(entries), MAX_SESSIONS, id, seqno, ts, now, now)
      ensures !closed && (ts.Some? ==> Sane(now)) ==>
        (ok <==> && (id in old(entries) || |old(entries)| < 10_000)
                 && (ts.Some? ==> Within30s(ts.value, now))
                 && (id in old(entries) ==>
                       seqno !in old(entries)[id].seen && forall h :: h in old(entries)[id].seen ==> h < seqno + 2048))
      ensures ok ==> id in entries && seqno in entries[id].seen && entries[id].last == Some(now)
    {
      if ts.Some? && Sane(now) { FreshMeansNear(ts.value, now); }
      if closed { return false; }
      if id !in entries {
        if |entries| >= MAX_SESSIONS { return false; }
        entries := entries[id := Entry({}, None)];
      }
      var e := entries[id];
      assert entries == old(entries)[id := e];
      if (ts.Some? && !Fresh(ts.value, now)) || !Admits(e.seen, seqno) { return false; }
      entries := entries[id := Entry(e.seen + {seqno}, Some(now))];
      assert entries == old(entries)[id := Entry(e.seen + {seqno}, Some(now))];
      return true;
    }

    method Expire(now: Time)
      modifies this`entries
      ensures entries == Expiring(Registry, old(entries), now)
      ensures forall id :: id in entries <==>
        id in old(entries) && old(entries)[id].last.Some? && now - old(entries)[id].last.value <= 65_000_000_000
    {
      var left := entries.Keys;
      while left != {}
        invariant left <= entries.Keys <= old(entries).Keys
        invariant forall id :: id in entries ==> entries[id] == old(entries)[id]
        invariant forall id :: id in old(entries) && id !in left ==>
                    (id in entries <==> !Idle(Registry, old(entries)[id].last, now))
      {
        var id :| id in left;
        if Idle(Registry, entries[id].last, now) { entries := entries - {id}; }
        left := left - {id};
      }
    }
  }

  // ---------------------------------------------------------------- runs

  datatype Taken = Taken(id: Seq64, ts: Seq64, seqno: Seq64, at: Time)

  datatype State = State(clock: Time, table: Table, taken: seq<Taken>)

  datatype Event =
    | Tick(to: Time)
    | Offer(id: Seq64, seqno: Seq64, ts: Seq64, now: Time, done: Time, limit: nat)
    | Touch(touched: Seq64)
    | Expire(at: Time)

  /** `done` is the clock when the accept records its activity. */
  predicate Enabled(p: Policy, s: State, e: Event) {
    match e
    case Tick(to) => s.clock <= to
    case Offer(_, _, _, now, done, _) => s.clock - Lag(p) <= now <= s.clock <= done && Sane(now)
    case Touch(_) => p.Cleaner?
    case Expire(at) => at <= s.clock
  }

  function Apply(p: Policy, s: State, e: Event): State {
    match e
    case Tick(to) => s.(clock := to)
    case Offer(id, seqno, ts, now, done, limit) =>
      var (t, ok) := Accepting(s.table, limit, id, seqno, Some(ts), now, if p.Registry? then now else done);
      State(done, t, if ok then s.taken + [Taken(id, ts, seqno, now)] else s.taken)
    case Touch(id) =>  // a reply from upstream refreshes the session
      if id in s.table then s.(table := s.table[id := s.table[id].(last := Some(s.clock))]) else s
    case Expire(at) => s.(table := Expiring(p, s.table, at))
  }

  ghost predicate Reaches(p: Policy, s: State, events: seq<Event>, s': State)
    decreases |events|
  {
    if events == [] then s == s'
    else Enabled(p, s, events[0]) && Reaches(p, Apply(p, s, events[0]), events[1..], s')
  }

  /** No instant a caller may still pass is fresh for this timestamp. */
  ghost predicate Stale(p: Policy, ts: Seq64, clock: Time) { Unix(clock - Lag(p)) - Signed(ts) > SKEW }

  ghost predicate Remembered(p: Policy, s: State, t: Taken) {
    && t.id in s.table && t.seqno in s.table[t.id].seen
    && s.table[t.id].last.Some? && s.table[t.id].last.value >= t.at - Lag(p)
  }

  ghost predicate Safe(p: Policy, s: State, t: Taken) {
    && t.at <= s.clock && Unix(t.at) - Signed(t.ts) >= -SKEW
    && (Remembered(p, s, t) || Stale(p, t.ts, s.clock))
  }

  predicate Same(t: Taken, t': Taken) { t.id == t'.id && t.ts == t'.ts && t.seqno == t'.seqno }

  ghost predicate Inv(p: Policy, s: State) {
    && (forall i :: 0 <= i < |s.taken| ==> Safe(p, s, s.taken[i]))
    && (forall i, j :: 0 <= i < j < |s.taken| ==> !Same(s.taken[i], s.taken[j]))
  }

  lemma StaleForever(p: Policy, ts: Seq64, clock: Time, later: Time)
    requires Stale(p, ts, clock) && clock <= later
    ensures Stale(p, ts, later)
  {
  }

  /** An idle window is dropped only after everything it accepted has become stale. */
  lemma ExpiryForgetsOnlyStale(p: Policy, s: State, at: Time, t: Taken)
    requires at <= s.clock && Safe(p, s, t)
    ensures Safe(p, s.(table := Expiring(p, s.table, at)), t)
  {
    if Remembered(p, s, t) && Idle(p, s.table[t.id].last, at) {
      assert Stale(p, t.ts, s.clock);
    }
  }

  /** The cleaner drops a session exactly when its last activity is more than 60 whole seconds back. */
  lemma CleanerDrops(s: State, at: Time, id: Seq64)
    requires id in s.table
    ensures id in Apply(Cleaner, s, Expire(at)).table <==>
      s.table[id].last.Some? && at / 1_000_000_000 - s.table[id].last.value / 1_000_000_000 <= 60
  {
  }

  /** A session that was touched is not dropped for 60 whole seconds. */
  lemma TouchedIsKept(s: State, at: Time, id: Seq64)
    requires id in s.table && at / 1_000_000_000 - s.clock / 1_000_000_000 <= 60
    ensures var touched := Apply(Cleaner, s, Touch(id));
      id in Apply(Cleaner, touched, Expire(at)).table
  {
  }

  lemma OfferKeeps(p: Policy, s: State, e: Event)
    requires Inv(p, s) && e.Offer? && Enabled(p, s, e)
    ensures Inv(p, Apply(p, s, e))
  {
    var s' := Apply(p, s, e);
    var Offer(id, seqno, ts, now, done, limit) := e;
    FreshMeansNear(ts, now);
    forall i | 0 <= i < |s.taken| ensures Safe(p, s', s.taken[i]) {
      var t := s.taken[i];
      assert Safe(p, s, t);
      if !Remembered(p, s, t) { StaleForever(p, t.ts, s.clock, done); }
    }
    if s'.taken != s.taken {
      var t' := Taken(id, ts, seqno, now);
      assert Remembered(p, s', t');
      forall i | 0 <= i < |s.taken| ensures !Same(s.taken[i], t') {
        assert Safe(p, s, s.taken[i]);
      }
    }
  }

  lemma EventKeeps(p: Policy, s: State, e: Event)
    requires Inv(p, s) && Enabled(p, s, e)
    ensures Inv(p, Apply(p, s, e))
  {
    match e
    case Offer(_, _, _, _, _, _) => OfferKeeps(p, s, e);
    case Tick(to) =>
      forall i | 0 <= i < |s.taken| ensures Safe(p, Apply(p, s, e), s.taken[i]) {
        assert Safe(p, s, s.taken[i]);
        if !Remembered(p, s, s.taken[i]) { StaleForever(p, s.taken[i].ts, s.clock, to); }
      }
    case Touch(id) =>
      forall i | 0 <= i < |s.taken| ensures Safe(p, Apply(p, s, e), s.taken[i]) {
        assert Safe(p, s, s.taken[i]);
      }
    case Expire(at) =>
      forall i | 0 <= i < |s.taken| ensures Safe(p, Apply(p, s, e), s.taken[i]) {
        ExpiryForgetsOnlyStale(p, s, at, s.taken[i]);
      }
  }

  /** At most once across clean-up, within one process and without any durable cache. */
  lemma {:induction false} NeverTwiceAcrossCleanup(p: Policy, s: State, events: seq<Event>, s': State)
    requires Inv(p, s) && Reaches(p, s, events, s')
    ensures forall i, j :: 0 <= i < j < |s'.taken| ==> !Same(s'.taken[i], s'.taken[j])
    decreases |events|
  {
    if events != [] {
      EventKeeps(p, s, events[0]);
      NeverTwiceAcrossCleanup(p, Apply(p, s, events[0]), events[1..], s');
    }
  }
}
