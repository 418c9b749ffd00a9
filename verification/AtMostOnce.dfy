/** The invariant that ties accepted datagrams to windows, memory and disk, and that every event of the
    admission system keeps, except a crash that takes a left-over file.  `Shadow` carries it over those
    too; `Grants` and `CrashSafety` draw the conclusions. */
module AtMostOnce {
  import opened Clock
  import opened NonceCache
  import opened DurableLog
  import opened ReplayBitmap
  import opened BucketNames
  import opened Admission

  // ---------------------------------------------------------------- the invariant

  function Deadline(g: Grant): int { Unix(g.at + RETENTION) }

  ghost predicate GrantsOnDisk(w: World) {
    forall g :: g in w.granted && Deadline(g) * SECOND > w.clock ==> OnDisk(w.cache, g.nonce, Deadline(g))
  }

  ghost predicate CallLogged(w: World, c: Call) {
    && c.tx <= w.cache.currentTx
    && (Deadline(c.grant) * SECOND > w.clock ==>
          && InLog(w.cache, c.grant.nonce, Deadline(c.grant))
          && (c.tx <= w.cache.syncedTx ==> OnDisk(w.cache, c.grant.nonce, Deadline(c.grant))))
  }

  ghost predicate CallsLogged(w: World) {
    !w.cache.failed ==> forall c :: c in w.calls ==> CallLogged(w, c)
  }

  /** A window asks for its own bucket, at an instant when the datagram is fresh. */
  ghost predicate WellNamed(w: World, g: Grant) {
    g.owner.ByWindow? ==>
      var o := g.owner;
      && g.nonce == Name(o.space, o.session, o.ts / BUCKET_SECONDS)
      && o.id < w.nextId && Sane(g.at) && Fresh(o.ts, g.at)
      && (o.id in w.windows ==> w.windows[o.id].space == o.space && w.windows[o.id].session == o.session)
  }

  /** Grants made, and grants a waiting caller may still obtain. */
  ghost predicate Promised(w: World, g: Grant) {
    g in w.granted || exists c :: c in w.calls && c.grant == g
  }

  predicate SameBucket(g: Grant, g': Grant) {
    g.owner.ByWindow? && g'.owner.ByWindow? && g.nonce == g'.nonce
  }

  ghost predicate OneOwner(w: World) {
    && (forall g :: Promised(w, g) ==> WellNamed(w, g))
    && (forall g, g' :: Promised(w, g) && Promised(w, g') && SameBucket(g, g') ==> g.owner.id == g'.owner.id)
  }

  ghost predicate HasGrant(w: World, id: nat, nonce: string) {
    exists g :: g in w.granted && g.nonce == nonce && g.owner.ByWindow? && g.owner.id == id
  }

  ghost predicate WindowsGranted(w: World) {
    && (forall id :: id in w.windows ==> id < w.nextId)
    && (forall id, b :: id in w.windows && b in w.windows[id].buckets ==>
          HasGrant(w, id, Name(w.windows[id].space, w.windows[id].session, b)))
  }

  function NameOf(d: Datagram): string { Name(d.space, d.session, d.ts / BUCKET_SECONDS) }

  ghost predicate AcceptancesGranted(w: World) {
    forall i :: 0 <= i < |w.accepted| ==>
      var a := w.accepted[i];
      && HasGrant(w, a.id, NameOf(a.datagram))
      && a.id < w.nextId
      && (a.id in w.windows ==> a.datagram.seqno in w.windows[a.id].seen)
  }

  ghost predicate NoReplay(w: World) {
    forall i, j :: 0 <= i < j < |w.accepted| ==> w.accepted[i].datagram != w.accepted[j].datagram
  }

  ghost predicate Inv(w: World) {
    && LogOk(w.cache, w.clock)
    && GrantsOnDisk(w)
    && CallsLogged(w)
    && OneOwner(w)
    && WindowsGranted(w)
    && AcceptancesGranted(w)
    && NoReplay(w)
  }

  // ---------------------------------------------------------------- every event keeps it

  lemma OnDiskIsLogged(c: Cache, nonce: string, e: int)
    requires OnDisk(c, nonce, e)
    ensures InLog(c, nonce, e)
  {
    HoldsInLonger(c.disk.file.durable, c.disk.file.View(), nonce, e);
  }

  lemma TickKeeps(w: World, to: Time)
    requires Inv(w) && w.clock <= to
    ensures Inv(w.(clock := to))
  {
    var w' := w.(clock := to);
    TimePasses(w.cache, w.clock, to);
    assert forall g :: Promised(w', g) <==> Promised(w, g);
    assert forall c :: c in w.calls && CallLogged(w, c) ==> CallLogged(w', c);
    assert forall id, n :: HasGrant(w, id, n) ==> HasGrant(w', id, n);
  }

  /** A change of the cache alone. */
  lemma CacheChangeKeeps(w: World, c': Cache)
    requires Inv(w)
    requires LogOk(c', w.clock) && Keeps(w.cache, c', w.clock) && w.cache.currentTx <= c'.currentTx
    requires !c'.failed && c'.syncedTx != w.cache.syncedTx ==>
               forall n, e :: InLog(w.cache, n, e) ==> OnDisk(c', n, e)
    ensures Inv(w.(cache := c'))
  {
    var w' := w.(cache := c');
    assert forall g :: Promised(w', g) <==> Promised(w, g);
    assert forall id, n :: HasGrant(w, id, n) ==> HasGrant(w', id, n);
    if !c'.failed {
      forall c | c in w.calls ensures CallLogged(w', c) {
        assert CallLogged(w, c);
      }
    }
  }

  /** While one window holds or awaits the grant of a bucket, no other can start to obtain it. */
  lemma PromisedBlocksOthers(w: World, g: Grant, g': Grant)
    requires Inv(w) && !w.cache.failed
    requires Promised(w, g) && SameBucket(g, g')
    requires Timely(w, g'.at) && Fresh(g'.owner.ts, g'.at)
    requires g'.nonce == Name(g'.owner.space, g'.owner.session, g'.owner.ts / BUCKET_SECONDS)
    ensures Deadline(g) * SECOND > w.clock && InLog(w.cache, g.nonce, Deadline(g))
  {
    var o, o' := g.owner, g'.owner;
    NameInjective(o.space, o.session, o.ts / BUCKET_SECONDS, o'.space, o'.session, o'.ts / BUCKET_SECONDS);
    BucketFreshUnder70s(o.ts, g.at, o'.ts, g'.at);
    assert Deadline(g) * SECOND > g.at + RETENTION - SECOND;
    if g in w.granted {
      OnDiskIsLogged(w.cache, g.nonce, Deadline(g));
    } else {
      var c :| c in w.calls && c.grant == g;
      assert CallLogged(w, c);
    }
  }

  lemma NewCallKeeps(w: World, call: Call)
    requires Inv(w) && CallLogged(w, call) && WellNamed(w, call.grant)
    requires forall h :: Promised(w, h) ==> !SameBucket(h, call.grant)
    ensures Inv(w.(calls := w.calls + {call}))
  {
    var w' := w.(calls := w.calls + {call});
    assert forall c :: c in w'.calls && CallLogged(w, c) ==> CallLogged(w', c);
    assert forall h :: Promised(w', h) ==> Promised(w, h) || h == call.grant;
    assert forall id, n :: HasGrant(w, id, n) ==> HasGrant(w', id, n);
  }

  lemma StartCallKeeps(w: World, g: Grant, seqno: Seq64, fault: Fault, image: seq<Record>)
    requires Inv(w) && Timely(w, g.at) && WellNamed(w, g)
    requires Compacts(w.cache, g.nonce, g.at) ==> IsImageOf(image, Live(w.cache.expires, g.at))
    ensures Inv(StartCall(w, g, seqno, fault, image))
  {
    var (c', r) := Start(w.cache, g.nonce, g.at, fault, image);
    StartKeeps(w.cache, w.clock, g.nonce, g.at, fault, image);
    var w1 := w.(cache := c');
    CacheChangeKeeps(w, c');
    if r.Waiting? {
      forall h | Promised(w1, h) ensures !SameBucket(h, g) {
        assert Promised(w, h);
        if SameBucket(h, g) { PromisedBlocksOthers(w, h, g); }
      }
      NewCallKeeps(w1, Call(g, seqno, r.tx));
    }
  }

  /** A window that holds the bucket's grant decides on one datagram. */
  lemma DecideKeeps(w: World, id: nat, win: Window, seqno: Seq64, ts: Seq64)
    requires Inv(w) && id in w.windows
    requires win.space == w.windows[id].space && win.session == w.windows[id].session
    requires win.seen == After(w.windows[id].seen, seqno)
    requires forall b :: b in win.buckets ==> HasGrant(w, id, Name(win.space, win.session, b))
    requires ts / BUCKET_SECONDS in win.buckets
    ensures Inv(Decide(w, id, win, Admits(w.windows[id].seen, seqno), seqno, ts))
  {
    var ok := Admits(w.windows[id].seen, seqno);
    var w' := Decide(w, id, win, ok, seqno, ts);
    var d := Datagram(win.space, win.session, ts, seqno);
    assert forall g :: Promised(w', g) <==> Promised(w, g);
    assert forall c :: c in w.calls && CallLogged(w, c) ==> CallLogged(w', c);
    assert forall i, n :: HasGrant(w, i, n) ==> HasGrant(w', i, n);
    if ok { AcceptedIsNew(w, id, d); }
  }

  lemma AcceptedIsNew(w: World, id: nat, d: Datagram)
    requires OneOwner(w) && AcceptancesGranted(w) && HasGrant(w, id, NameOf(d))
    requires id in w.windows && d.seqno !in w.windows[id].seen
    ensures forall i :: 0 <= i < |w.accepted| ==> w.accepted[i].datagram != d
  {
    forall i | 0 <= i < |w.accepted|
      ensures w.accepted[i].datagram != d
    {
      var a := w.accepted[i];
      if a.datagram == d {
        SameBucketSameWindow(w, id, a.id, NameOf(d));
      }
    }
  }

  lemma SameBucketSameWindow(w: World, id: nat, id': nat, nonce: string)
    requires OneOwner(w) && HasGrant(w, id, nonce) && HasGrant(w, id', nonce)
    ensures id == id'
  {
    var g :| g in w.granted && g.nonce == nonce && g.owner.ByWindow? && g.owner.id == id;
    var g' :| g' in w.granted && g'.nonce == nonce && g'.owner.ByWindow? && g'.owner.id == id';
    assert Promised(w, g) && Promised(w, g') && SameBucket(g, g');
  }

  lemma PurgedWindowKeeps(w: World, id: nat, now: Time)
    requires Inv(w) && id in w.windows
    ensures Inv(w.(windows := w.windows[id := w.windows[id].(buckets := LiveBuckets(w.windows[id].buckets, now))]))
  {
    var w' := w.(windows := w.windows[id := w.windows[id].(buckets := LiveBuckets(w.windows[id].buckets, now))]);
    assert forall g :: Promised(w', g) <==> Promised(w, g);
    assert forall c :: c in w.calls && CallLogged(w, c) ==> CallLogged(w', c);
    assert forall i, n :: HasGrant(w, i, n) ==> HasGrant(w', i, n);
  }

  lemma ArriveKeeps(w: World, id: nat, seqno: Seq64, ts: Seq64, now: Time, fault: Fault, image: seq<Record>)
    requires Inv(w) && Enabled(w, Arrive(id, seqno, ts, now, fault, image))
    ensures Inv(ArriveAt(w, id, seqno, ts, now, fault, image))
  {
    var old' := w.windows[id];
    var (win, v) := Enter(old', seqno, ts, now);
    if !Fresh(ts, now) {
      assert w.windows[id := win] == w.windows;
    } else if v.Decided? {
      assert forall b :: b in win.buckets ==> b in old'.buckets;
      DecideKeeps(w, id, win, seqno, ts);
    } else {
      PurgedWindowKeeps(w, id, now);
      var g := Grant(v.nonce, now, ByWindow(id, win.space, win.session, ts));
      StartCallKeeps(w.(windows := w.windows[id := win]), g, seqno, fault, image);
    }
  }

  lemma GrantKeeps(w: World, call: Call)
    requires Inv(w) && call in w.calls && !w.cache.failed && call.tx <= w.cache.syncedTx
    ensures Inv(w.(calls := w.calls - {call}, granted := w.granted + {call.grant}))
  {
    var w' := w.(calls := w.calls - {call}, granted := w.granted + {call.grant});
    assert CallLogged(w, call);
    assert Promised(w, call.grant);
    assert forall h :: Promised(w', h) ==> Promised(w, h);
    assert forall c :: c in w'.calls && CallLogged(w, c) ==> CallLogged(w', c);
    assert forall i, n :: HasGrant(w, i, n) ==> HasGrant(w', i, n);
  }

  lemma LostCallKeeps(w: World, call: Call)
    requires Inv(w)
    ensures Inv(w.(calls := w.calls - {call}))
  {
    var w' := w.(calls := w.calls - {call});
    assert forall g :: Promised(w', g) ==> Promised(w, g);
    assert forall c :: c in w'.calls && CallLogged(w, c) ==> CallLogged(w', c);
    assert forall i, n :: HasGrant(w, i, n) ==> HasGrant(w', i, n);
  }

  lemma AnswerKeeps(w: World, call: Call)
    requires Inv(w) && call in w.calls && Finish(w.cache, call.tx).Answered?
    ensures Inv(AnswerCall(w, call))
  {
    var g := call.grant;
    if w.cache.failed {
      LostCallKeeps(w, call);
    } else {
      GrantKeeps(w, call);
      var w' := w.(calls := w.calls - {call}, granted := w.granted + {g});
      if g.owner.ByWindow? && g.owner.id in w.windows {
        var id := g.owner.id;
        assert Promised(w', g) && HasGrant(w', id, g.nonce);
        DecideKeeps(w', id, Resume(w'.windows[id], call.seqno, g.owner.ts, g.at).0, call.seqno, g.owner.ts);
      }
    }
  }

  lemma RestartKeeps(w: World, c: Cache)
    requires Inv(w) && LogOk(c, w.clock)
    requires forall g :: g in w.granted && Deadline(g) * SECOND > w.clock ==> OnDisk(c, g.nonce, Deadline(g))
    ensures Inv(Restarted(w, c))
  {
    var w' := Restarted(w, c);
    assert forall g :: Promised(w', g) ==> Promised(w, g);
    assert forall i, n :: HasGrant(w, i, n) ==> HasGrant(w', i, n);
  }

  lemma CrashEventKeeps(w: World, d: Disk, survivor: seq<Record>, reload: Time)
    requires Inv(w) && reload <= w.clock && Current(d, survivor)
    requires Distinct(d.file.View(), w.clock) && LeftOverOk(d.leftOver, w.clock)
    requires d.replaced.Some? ==> Distinct(d.replaced.value.View(), w.clock)
    requires forall g :: g in w.granted && Deadline(g) * SECOND > w.clock ==>
               OnDisk(w.cache.(disk := d), g.nonce, Deadline(g))
    ensures Inv(Restarted(w, Recovered(survivor, reload)))
  {
    CrashKeeps(d, survivor, w.clock, reload);
    forall g | g in w.granted && Deadline(g) * SECOND > w.clock
      ensures Holds(survivor, g.nonce, Deadline(g))
    {
      assert OnDisk(w.cache.(disk := d), g.nonce, Deadline(g));
      SurvivorKeeps(d, survivor, g.nonce, Deadline(g));
    }
    RestartKeeps(w, Recovered(survivor, reload));
  }

  lemma CrashInCompactionKeeps(w: World, purged: Time, written: seq<Record>, left: seq<Record>, reopen: Time)
    requires Inv(w) && Enabled(w, CrashInCompaction(purged, written, left, reopen))
    requires !TakesLeftOver(w, CrashInCompaction(purged, written, left, reopen))
    ensures Inv(Restarted(w, Recovered(left, reopen)))
  {
    MidCompactionKeeps(w, purged, written);
    CrashEventKeeps(w, MidCompaction(w.cache, purged, written), left, reopen);
  }

  lemma WindowTableKeeps(w: World, windows: map<nat, Window>, nextId: nat)
    requires Inv(w) && nextId >= w.nextId
    requires forall id :: id in windows ==>
               if id in w.windows then windows[id] == w.windows[id]
               else w.nextId <= id < nextId && windows[id].buckets == map[]
    ensures Inv(w.(windows := windows, nextId := nextId))
  {
    var w' := w.(windows := windows, nextId := nextId);
    assert forall g :: Promised(w', g) <==> Promised(w, g);
    assert forall c :: c in w.calls && CallLogged(w, c) ==> CallLogged(w', c);
    assert forall i, n :: HasGrant(w, i, n) ==> HasGrant(w', i, n);
  }

  lemma TableEventKeeps(w: World, e: Event)
    requires Inv(w) && Enabled(w, e) && (e.Tick? || e.OpenWindow? || e.DropWindow?)
    ensures Inv(Apply(w, e))
  {
    match e
    case Tick(to) => TickKeeps(w, to);
    case OpenWindow(space, session) =>
      WindowTableKeeps(w, w.windows[w.nextId := Window(space, session, map[], {})], w.nextId + 1);
    case DropWindow(id) => WindowTableKeeps(w, w.windows - {id}, w.nextId);
  }

  lemma CallEventKeeps(w: World, e: Event)
    requires Inv(w) && Enabled(w, e) && (e.Arrive? || e.ForeignStart? || e.Wake?)
    ensures Inv(Apply(w, e))
  {
    match e
    case Arrive(id, seqno, ts, now, fault, image) => ArriveKeeps(w, id, seqno, ts, now, fault, image);
    case ForeignStart(nonce, at, fault, image) => StartCallKeeps(w, Grant(nonce, at, Foreign), 0, fault, image);
    case Wake(call) => AnswerKeeps(w, call);
  }

  lemma EventKeeps(w: World, e: Event)
    requires Inv(w) && Enabled(w, e) && !TakesLeftOver(w, e)
    ensures Inv(Apply(w, e))
  {
    if e.Tick? || e.OpenWindow? || e.DropWindow? {
      TableEventKeeps(w, e);
    } else if e.Arrive? || e.ForeignStart? || e.Wake? {
      CallEventKeeps(w, e);
    } else if e.Check? || e.Commit? || e.CloseCache? {
      CacheEventKeeps(w, e);
    } else {
      RestartEventKeeps(w, e);
    }
  }

  lemma CacheEventKeeps(w: World, e: Event)
    requires Inv(w) && Enabled(w, e) && (e.Check? || e.Commit? || e.CloseCache?)
    ensures Inv(Apply(w, e))
  {
    match e
    case Check(when) =>
      PurgeKeeps(w.cache, w.clock, when);
      CacheChangeKeeps(w, w.cache.(expires := Live(w.cache.expires, when)));
    case Commit(ok) =>
      CommitKeeps(w.cache, w.clock, ok);
      CacheChangeKeeps(w, Committed(w.cache, ok));
    case CloseCache => CacheChangeKeeps(w, w.cache.(closed := true));
  }

  lemma ExitKeeps(w: World, d: Disk, restart: Time)
    requires Inv(w) && restart <= w.clock
    requires Distinct(d.file.View(), w.clock) && LeftOverOk(d.leftOver, w.clock)
    requires d.replaced.Some? ==> Distinct(d.replaced.value.View(), w.clock)
    requires forall g :: g in w.granted && Deadline(g) * SECOND > w.clock ==>
               OnDisk(w.cache.(disk := d), g.nonce, Deadline(g))
    ensures Inv(Restarted(w, Opened(d, restart)))
  {
    ReloadOk(d, w.clock, restart);
    forall g | g in w.granted && Deadline(g) * SECOND > w.clock
      ensures OnDisk(Opened(d, restart), g.nonce, Deadline(g))
    {
      assert OnDisk(w.cache.(disk := d), g.nonce, Deadline(g));
    }
    RestartKeeps(w, Opened(d, restart));
  }

  /** The disk in the middle of a compaction still has every grant. */
  lemma MidCompactionKeeps(w: World, purged: Time, written: seq<Record>)
    requires Inv(w) && purged <= w.clock && !w.cache.failed
    requires IsImageOf(written, Live(w.cache.expires, purged))
    ensures var d := MidCompaction(w.cache, purged, written);
            && Distinct(d.file.View(), w.clock) && LeftOverOk(d.leftOver, w.clock)
            && d.replaced.Some? && Distinct(d.replaced.value.View(), w.clock)
            && forall g :: g in w.granted && Deadline(g) * SECOND > w.clock ==>
                 OnDisk(w.cache.(disk := d), g.nonce, Deadline(g))
  {
    var kept := w.cache.(expires := Live(w.cache.expires, purged));
    PurgeKeeps(w.cache, w.clock, purged);
    RenameKeeps(kept, w.clock, written);
    var renamed := Renamed(kept, written);
    forall g | g in w.granted && Deadline(g) * SECOND > w.clock
      ensures OnDisk(w.cache.(disk := renamed.disk), g.nonce, Deadline(g))
    {
      assert OnDisk(kept, g.nonce, Deadline(g));
      assert OnDisk(renamed, g.nonce, Deadline(g));
    }
  }

  lemma RestartEventKeeps(w: World, e: Event)
    requires Inv(w) && Enabled(w, e) && !TakesLeftOver(w, e)
    requires e.Crash? || e.CrashInCompaction? || e.Exit? || e.ExitInCompaction?
    ensures Inv(Apply(w, e))
  {
    match e
    case Crash(survivor, reload) => CrashEventKeeps(w, w.cache.disk, survivor, reload);
    case CrashInCompaction(purged, written, left, reopen) => CrashInCompactionKeeps(w, purged, written, left, reopen);
    case Exit(restart) => ExitKeeps(w, w.cache.disk, restart);
    case ExitInCompaction(purged, written, restart) =>
      MidCompactionKeeps(w, purged, written);
      ExitKeeps(w, MidCompaction(w.cache, purged, written), restart);
  }

  lemma InitialInv(w: World)
    requires Initial(w)
    ensures Inv(w)
  {
    assert w.cache.disk.file.View() == [];
    assert forall g :: !Promised(w, g);
  }
}
