/** Admission of authenticated datagrams (pkg/server/udp_replay_persistent.go) over the durable nonce
    cache, for any number of windows, dropped and reopened at any time, with crashes and restarts. */
module Admission {
  import opened Clock
  import opened NonceCache
  import opened ReplayBitmap
  import opened BucketNames

  const BUCKET_SECONDS := 10
  const SKEW := 30

  // ---------------------------------------------------------------- freshness

  const INT64_LIMIT := 0x8000_0000_0000_0000

  /** int64(timestamp) */
  function Signed(ts: Seq64): int { if ts < INT64_LIMIT then ts else ts - UINT64_LIMIT }

  /** int64 subtraction wraps around. */
  function Wrapped(x: int): int { (x + INT64_LIMIT) % UINT64_LIMIT - INT64_LIMIT }

  predicate Fresh(ts: Seq64, now: Time) { -SKEW <= Wrapped(Unix(now) - Signed(ts)) <= SKEW }

  /** Any clock within 146 billion years of 1970. */
  predicate Sane(now: Time) { -0x4000_0000_0000_0000 < Unix(now) < 0x4000_0000_0000_0000 }

  /** The 64-bit timestamp, taken as signed seconds, is at most 30 s from the clock's second. */
  predicate Within30s(ts: Seq64, now: Time) {
    var seconds: int := if ts < 0x8000_0000_0000_0000 then ts else ts - 0x1_0000_0000_0000_0000;
    -30 <= now / 1_000_000_000 - seconds <= 30
  }

  lemma FreshMeansNear(ts: Seq64, now: Time)
    requires Sane(now)
    ensures Fresh(ts, now) <==> -SKEW <= Unix(now) - Signed(ts) <= SKEW
    ensures Fresh(ts, now) <==> Within30s(ts, now)
  {
    var d := Unix(now) - Signed(ts);
    if -INT64_LIMIT <= d < INT64_LIMIT {
      assert Wrapped(d) == d;
    } else if d >= INT64_LIMIT {
      assert Wrapped(d) == d - UINT64_LIMIT;
    } else {
      assert Wrapped(d) == d + UINT64_LIMIT;
    }
  }

  /** One bucket is fresh for less than 70 s. */
  lemma BucketFreshUnder70s(ts: Seq64, now: Time, ts': Seq64, now': Time)
    requires Sane(now) && Sane(now')
    requires Fresh(ts, now) && Fresh(ts', now') && ts / BUCKET_SECONDS == ts' / BUCKET_SECONDS
    ensures now' - now < 70 * SECOND
  {
    FreshMeansNear(ts, now);
    FreshMeansNear(ts', now');
    assert Unix(now') - Unix(now) <= 69;
  }

  // ---------------------------------------------------------------- one window

  datatype Window = Window(space: string, session: Seq64, buckets: map<nat, Time>, seen: set<Seq64>)

  datatype Verdict = Decided(ok: bool) | Ask(nonce: string)

  function LiveBuckets(buckets: map<nat, Time>, now: Time): map<nat, Time> {
    map b | b in buckets && buckets[b] > now :: buckets[b]
  }

  /** AcceptAuthenticated up to the call of the cache, if there is one. */
  ghost function Enter(w: Window, seqno: Seq64, ts: Seq64, now: Time): (Window, Verdict) {
    if !Fresh(ts, now) then (w, Decided(false))
    else
      var w := w.(buckets := LiveBuckets(w.buckets, now));
      if ts / BUCKET_SECONDS in w.buckets then
        (w.(seen := After(w.seen, seqno)), Decided(Admits(w.seen, seqno)))
      else (w, Ask(Name(w.space, w.session, ts / BUCKET_SECONDS)))
  }

  /** The rest, once the cache has admitted the bucket. */
  ghost function Resume(w: Window, seqno: Seq64, ts: Seq64, now: Time): (Window, bool) {
    (w.(buckets := w.buckets[ts / BUCKET_SECONDS := now + RETENTION], seen := After(w.seen, seqno)),
     Admits(w.seen, seqno))
  }

  class UDPReplayWindow {
    const space: string
    const session: Seq64
    const window: ReplayWindow
    var buckets: map<nat, Time>

    ghost predicate Valid()
      reads this, window, window.bits
    {
      window.Valid()
    }

    ghost function State(): Window
      reads this, window
    {
      Window(space, session, buckets, window.accepted)
    }

    constructor (space: string, session: Seq64)
      ensures Valid() && State() == Window(space, session, map[], {})
      ensures fresh(window) && fresh(window.bits)
    {
      this.space, this.session, buckets := space, session, map[];
      window := new ReplayWindow();
    }

    method AcceptUntilCache(seqno: Seq64, ts: Seq64, now: Time) returns (v: Verdict)
      requires Valid()
      modifies this, window, window.bits
      ensures Valid()
      ensures (State(), v) == Enter(old(State()), seqno, ts, now)
      // a timestamp more than 30 s off is refused, and nothing changes
      ensures Sane(now) && !Within30s(ts, now) ==>
        v == Decided(false) && buckets == old(buckets) && window.accepted == old(window.accepted)
      // otherwise the cache is asked exactly when no unexpired admission of the bucket is held
      ensures Sane(now) && Within30s(ts, now) ==>
        (v.Ask? <==> !(ts / 10 in old(buckets) && old(buckets)[ts / 10] > now))
      ensures v.Ask? ==> v.nonce == Name(space, session, ts / 10) && window.accepted == old(window.accepted)
      // and if one is held, the bitmap decides
      ensures Sane(now) && Within30s(ts, now) && v.Decided? ==>
        && (v.ok <==> seqno !in old(window.accepted) && forall h :: h in old(window.accepted) ==> h < seqno + 2048)
        && window.accepted == if v.ok then old(window.accepted) + {seqno} else old(window.accepted)
    {
      if Sane(now) { FreshMeansNear(ts, now); }
      if !Fresh(ts, now) { return Decided(false); }
      PurgeBuckets(now);
      if ts / BUCKET_SECONDS !in buckets {
        return Ask(Name(space, session, ts / BUCKET_SECONDS));
      }
      var ok := window.Accept(seqno);
      return Decided(ok);
    }

    method AcceptAfterCache(seqno: Seq64, ts: Seq64, now: Time) returns (ok: bool)
      requires Valid()
      modifies this, window, window.bits
      ensures Valid()
      ensures (State(), ok) == Resume(old(State()), seqno, ts, now)
      ensures ok <==> seqno !in old(window.accepted) && forall h :: h in old(window.accepted) ==> h < seqno + 2048
      ensures window.accepted == if ok then old(window.accepted) + {seqno} else old(window.accepted)
      ensures buckets == old(buckets)[ts / 10 := now + 180_000_000_000]
    {
      buckets := buckets[ts / BUCKET_SECONDS := now + RETENTION];
      ok := window.Accept(seqno);
    }

    method PurgeBuckets(now: Time)
      modifies this`buckets
      ensures buckets == LiveBuckets(old(buckets), now)
      ensures forall b :: b in buckets <==> b in old(buckets) && old(buckets)[b] > now
    {
      var left := buckets.Keys;
      while left != {}
        invariant left <= buckets.Keys <= old(buckets).Keys
        invariant forall b :: b in buckets ==> buckets[b] == old(buckets)[b]
        invariant forall b :: b in old(buckets) && b !in left ==> (b in buckets <==> old(buckets)[b] > now)
      {
        var b :| b in left;
        if buckets[b] <= now { buckets := buckets - {b}; }
        left := left - {b};
      }
    }
  }

  // ---------------------------------------------------------------- the whole system

  datatype Owner = Foreign | ByWindow(id: nat, space: string, session: Seq64, ts: Seq64)

  /** One successful Accept of the cache, with the instant its caller passed. */
  datatype Grant = Grant(nonce: string, at: Time, owner: Owner)

  /** A caller waiting for its record to be synced. */
  datatype Call = Call(grant: Grant, seqno: Seq64, tx: nat)

  datatype Datagram = Datagram(space: string, session: Seq64, ts: Seq64, seqno: Seq64)

  datatype Acceptance = Acceptance(datagram: Datagram, id: nat)

  datatype World = World(
    clock: Time,
    cache: Cache,
    windows: map<nat, Window>,
    nextId: nat,
    calls: set<Call>,
    granted: set<Grant>,
    accepted: seq<Acceptance>)

  datatype Event =
    | Tick(to: Time)
    | OpenWindow(space: string, session: Seq64)
    | DropWindow(dropped: nat)
    | Arrive(id: nat, seqno: Seq64, ts: Seq64, now: Time, fault: Fault, image: seq<Record>)
    | ForeignStart(nonce: string, at: Time, fault': Fault, image': seq<Record>)
    | Check(when: Time)
    | Wake(call: Call)
    | Commit(ok: bool)
    | CloseCache
    | Crash(survivor: seq<Record>, reload: Time)
    | CrashInCompaction(purged: Time, written: seq<Record>, left: seq<Record>, reopen: Time)
    | Exit(restart: Time)
    | ExitInCompaction(purged': Time, written': seq<Record>, restart': Time)

  /** How far behind the clock the instant a caller passes may lag: it was read before the caller got
      the locks. */
  const LAG: Time := 109 * SECOND

  predicate Timely(w: World, now: Time) { w.clock - LAG <= now <= w.clock && Sane(now) && Sane(w.clock) }

  /** The disk between the rename of a compaction and its directory sync. */
  function MidCompaction(c: Cache, now: Time, image: seq<Record>): Disk {
    Renamed(c.(expires := Live(c.expires, now)), image).disk
  }

  ghost predicate Enabled(w: World, e: Event) {
    match e
    case Tick(to) => w.clock <= to
    case OpenWindow(_, _) => true
    case DropWindow(_) => true
    case Arrive(id, seqno, ts, now, fault, image) =>
      && id in w.windows && Timely(w, now)
      && (forall nonce :: Compacts(w.cache, nonce, now) ==> IsImageOf(image, Live(w.cache.expires, now)))
    case ForeignStart(nonce, at, fault, image) =>
      && Timely(w, at)
      && (Compacts(w.cache, nonce, at) ==> IsImageOf(image, Live(w.cache.expires, at)))
    case Check(when) => Timely(w, when)
    case Wake(call) => call in w.calls && Finish(w.cache, call.tx).Answered?
    case Commit(_) => true
    case CloseCache => true
    case Crash(survivor, reload) => Timely(w, reload) && Survives(w.cache.disk, survivor)
    case CrashInCompaction(purged, written, left, reopen) =>
      && Timely(w, purged) && Timely(w, reopen) && !w.cache.failed
      && IsImageOf(written, Live(w.cache.expires, purged))
      && Survives(MidCompaction(w.cache, purged, written), left)
    case Exit(restart) => Timely(w, restart)
    case ExitInCompaction(purged, written, restart) =>
      && Timely(w, purged) && Timely(w, restart) && !w.cache.failed
      && IsImageOf(written, Live(w.cache.expires, purged))
  }

  ghost function Restarted(w: World, c: Cache): World {
    w.(cache := c, windows := map[], calls := {})
  }

  ghost function Decide(w: World, id: nat, win: Window, ok: bool, seqno: Seq64, ts: Seq64): World {
    w.(windows := w.windows[id := win],
       accepted :=
         if ok then w.accepted + [Acceptance(Datagram(win.space, win.session, ts, seqno), id)] else w.accepted)
  }

  ghost function StartCall(w: World, grant: Grant, seqno: Seq64, fault: Fault, image: seq<Record>): World {
    var (c, r) := Start(w.cache, grant.nonce, grant.at, fault, image);
    w.(cache := c, calls := if r.Waiting? then w.calls + {Call(grant, seqno, r.tx)} else w.calls)
  }

  ghost function ArriveAt(w: World, id: nat, seqno: Seq64, ts: Seq64, now: Time,
                          fault: Fault, image: seq<Record>): World
    requires id in w.windows
  {
    var (win, v) := Enter(w.windows[id], seqno, ts, now);
    match v
    case Decided(ok) => Decide(w, id, win, ok, seqno, ts)
    case Ask(nonce) =>
      var grant := Grant(nonce, now, ByWindow(id, win.space, win.session, ts));
      StartCall(w.(windows := w.windows[id := win]), grant, seqno, fault, image)
  }

  ghost function AnswerCall(w: World, call: Call): World {
    var w := w.(calls := w.calls - {call});
    if w.cache.failed then w
    else
      var w := w.(granted := w.granted + {call.grant});
      match call.grant.owner
      case Foreign => w
      case ByWindow(id, _, _, ts) =>
        if id !in w.windows then w  // the process no longer has that window
        else
          var (win, ok) := Resume(w.windows[id], call.seqno, ts, call.grant.at);
          Decide(w, id, win, ok, call.seqno, ts)
  }

  ghost function Apply(w: World, e: Event): World
    requires Enabled(w, e)
  {
    match e
    case Tick(to) => w.(clock := to)
    case OpenWindow(space, session) =>
      w.(windows := w.windows[w.nextId := Window(space, session, map[], {})], nextId := w.nextId + 1)
    case DropWindow(id) => w.(windows := w.windows - {id})
    case Arrive(id, seqno, ts, now, fault, image) => ArriveAt(w, id, seqno, ts, now, fault, image)
    case ForeignStart(nonce, at, fault, image) => StartCall(w, Grant(nonce, at, Foreign), 0, fault, image)
    case Check(when) => w.(cache := w.cache.(expires := Live(w.cache.expires, when)))
    case Wake(call) => AnswerCall(w, call)
    case Commit(ok) => w.(cache := Committed(w.cache, ok))
    case CloseCache => w.(cache := w.cache.(closed := true))
    case Crash(survivor, reload) => Restarted(w, Recovered(survivor, reload))
    case CrashInCompaction(_, _, left, reopen) => Restarted(w, Recovered(left, reopen))
    case Exit(restart) => Restarted(w, Opened(w.cache.disk, restart))
    case ExitInCompaction(purged, written, restart) =>
      Restarted(w, Opened(MidCompaction(w.cache, purged, written), restart))
  }

  /** A first start on an empty log. */
  ghost predicate Initial(w: World) {
    && w.cache == Recovered([], w.clock)
    && w.windows == map[] && w.calls == {} && w.granted == {} && w.accepted == []
  }

  ghost predicate Reaches(w: World, events: seq<Event>, w': World)
    decreases |events|
  {
    if events == [] then w == w'
    else Enabled(w, events[0]) && Reaches(Apply(w, events[0]), events[1..], w')
  }

  /** A machine crash after which the path names a file left over from before the process started: a
      compaction of an earlier process renamed it away, and no directory sync has succeeded since. */
  ghost predicate TakesLeftOver(w: World, e: Event) {
    match e
    case Crash(survivor, _) => !Current(w.cache.disk, survivor)
    case CrashInCompaction(purged, written, left, _) => !Current(MidCompaction(w.cache, purged, written), left)
    case _ => false
  }

  /** No crash of the run takes a left-over file. */
  ghost predicate Clean(w: World, events: seq<Event>)
    decreases |events|
  {
    events != [] && Enabled(w, events[0]) ==> !TakesLeftOver(w, events[0]) && Clean(Apply(w, events[0]), events[1..])
  }
}
