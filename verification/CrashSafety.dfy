/** When is a machine crash harmless?  A crash that takes a left-over file is harmless when no datagram
    accepted so far can still be fresh at an instant at which its bucket is missing from the reloaded
    memory and there is room for it.  Runs all of whose crashes are harmless, and only those crashes,
    never lead to a datagram accepted twice.

    The proof follows the shadow of the run: what the shadow has forgotten is shut out for good. */
module CrashSafety {
  import opened Clock
  import opened Sets
  import opened NonceCache
  import opened DurableLog
  import opened ReplayBitmap
  import opened BucketNames
  import opened Admission
  import opened AtMostOnce
  import opened LeftOver
  import opened Shadow

  // ---------------------------------------------------------------- the condition

  /** The datagram is fresh for a caller that reads the clock at `now` and gets the locks at `t`. */
  ghost predicate FreshAt(d: Datagram, now: Time, t: Time) {
    t - LAG <= now <= t && Sane(now) && Sane(t) && Fresh(d.ts, now)
  }

  predicate Missing(memory: map<string, Time>, nonce: string, t: Time) {
    nonce !in Live(memory, t) && |Live(memory, t)| < CAPACITY
  }

  /** A datagram that arrives at clock `t` finds its bucket missing from the memory `w` has, and room for
      it. */
  ghost predicate CanReplay(w: World, d: Datagram, now: Time, t: Time) {
    w.clock <= t && FreshAt(d, now, t) && Missing(w.cache.expires, NameOf(d), t)
  }

  ghost predicate Replayable(w: World) {
    exists i: nat, now, t :: i < |w.accepted| && CanReplay(w, w.accepted[i].datagram, now, t)
  }

  /** After every crash of the run that takes a left-over file, nothing can be replayed. */
  ghost predicate Harmless(w: World, events: seq<Event>)
    decreases |events|
  {
    events != [] && Enabled(w, events[0]) ==>
      && (TakesLeftOver(w, events[0]) ==> !Replayable(Apply(w, events[0])))
      && Harmless(Apply(w, events[0]), events[1..])
  }

  lemma {:induction false} CleanIsHarmless(w: World, events: seq<Event>)
    requires Clean(w, events)
    ensures Harmless(w, events)
    decreases |events|
  {
    if events != [] && Enabled(w, events[0]) {
      CleanIsHarmless(Apply(w, events[0]), events[1..]);
    }
  }

  // ---------------------------------------------------------------- if it holds, there is a replay

  lemma ReplayableLeads(w: World, image: seq<Record>, reload: Time)
    requires w.cache == Recovered(image, reload) && Replayable(w)
    ensures Leads(w, true)
  {
    var i: nat, now, t :| i < |w.accepted| && CanReplay(w, w.accepted[i].datagram, now, t);
    var later := w.(clock := t);
    var purged := w.cache.(expires := Live(w.cache.expires, t));
    assert Live(purged.expires, now) == purged.expires;
    assert Admitting(purged, NameOf(w.accepted[i].datagram), now);
    PurgedLeads(later.(cache := purged), i, now);
    Back(later, Check(t), true);
    Back(w, Tick(t), true);
  }

  /** Once the memory is purged, the datagram is accepted again. */
  lemma PurgedLeads(w: World, i: nat, now: Time)
    requires i < |w.accepted| && Timely(w, now) && Fresh(w.accepted[i].datagram.ts, now)
    requires Admitting(w.cache, NameOf(w.accepted[i].datagram), now)
    ensures Leads(w, true)
  {
    var d := w.accepted[i].datagram;
    AcceptingAccepts(w, d, now);
    var end := Accepting(w, d, now);
    assert end.accepted[i].datagram == end.accepted[|w.accepted|].datagram;
    assert Reaches(end, [], end) && Clean(end, []);
    AcceptingBack(w, d, now, true);
  }

  lemma MissingStays(memory: map<string, Time>, nonce: string, t: Time, later: Time)
    requires Missing(memory, nonce, t) && t <= later
    ensures Missing(memory, nonce, later)
  {
    assert Live(memory, later).Keys <= Live(memory, t).Keys;
    Fewer(Live(memory, later).Keys, Live(memory, t).Keys);
  }

  // ---------------------------------------------------------------- what is shut out

  /** From `clock` on the datagram is fresh at no instant a caller may pass. */
  ghost predicate Stale(d: Datagram, clock: Time) {
    forall now, t :: clock <= t ==> !FreshAt(d, now, t)
  }

  /** A datagram that nothing will accept: it cannot be replayed against the memory `start` had, a window
      with its bucket finds it stale, and no call waits for it. */
  ghost predicate Shut(start: World, p: World, d: Datagram) {
    && (forall now, t :: !CanReplay(start, d, now, t))
    && (forall g :: Promised(p, g) && g.owner.ByWindow? && g.nonce == NameOf(d) ==> Stale(d, p.clock))
    && (forall c :: c in p.calls && c.grant.owner.ByWindow? && c.grant.nonce == NameOf(d) ==> c.grant.owner.ts != d.ts)
  }

  ghost predicate Remembered(granted: set<Grant>, nonce: string, expiry: Time) {
    exists g :: g in granted && g.nonce == nonce && Deadline(g) * SECOND >= expiry
  }

  /** The memory `start` had is granted. */
  ghost predicate Remembers(start: World, p: World) {
    && start.clock <= p.clock
    && forall n :: n in start.cache.expires ==> Remembered(p.granted, n, start.cache.expires[n])
  }

  lemma NonceStays(c: Cache, clock: Time, now: Time, g: Grant)
    requires LogOk(c, clock) && !c.failed && now <= clock
    requires Deadline(g) * SECOND > clock && OnDisk(c, g.nonce, Deadline(g))
    ensures g.nonce in Live(c.expires, now)
  {
    OnDiskIsLogged(c, g.nonce, Deadline(g));
    LiveInMemory(c, clock, now, g.nonce, Deadline(g));
  }

  /** Memory of the start that has not expired is memory still. */
  lemma MemoryStays(start: World, p: World, now: Time)
    requires Inv(p) && Remembers(start, p) && !p.cache.failed && now <= p.clock
    ensures Live(start.cache.expires, p.clock).Keys <= Live(p.cache.expires, now).Keys
  {
    forall n | n in Live(start.cache.expires, p.clock) ensures n in Live(p.cache.expires, now) {
      assert Remembered(p.granted, n, start.cache.expires[n]);
      var g :| g in p.granted && g.nonce == n && Deadline(g) * SECOND >= start.cache.expires[n];
      NonceStays(p.cache, p.clock, now, g);
    }
  }

  /** A bucket is asked for only when it is missing from the memory `start` had. */
  lemma AskedWhenMissing(start: World, p: World, g: Grant, fault: Fault, image: seq<Record>)
    requires Inv(p) && Remembers(start, p) && g.at <= p.clock
    requires Start(p.cache, g.nonce, g.at, fault, image).1.Waiting?
    ensures Missing(start.cache.expires, g.nonce, p.clock)
  {
    MemoryStays(start, p, g.at);
    Fewer(Live(start.cache.expires, p.clock).Keys, Live(p.cache.expires, g.at).Keys);
  }

  lemma MissingMakesStale(start: World, d: Datagram, clock: Time)
    requires start.clock <= clock && Missing(start.cache.expires, NameOf(d), clock)
    requires forall now, t :: !CanReplay(start, d, now, t)
    ensures Stale(d, clock)
  {
    forall now, t | clock <= t ensures !FreshAt(d, now, t) {
      MissingStays(start.cache.expires, NameOf(d), clock, t);
      assert !CanReplay(start, d, now, t);
    }
  }

  lemma StartShuts(start: World, p: World, g: Grant, seqno: Seq64, fault: Fault, image: seq<Record>, d: Datagram)
    requires Inv(p) && Remembers(start, p) && Timely(p, g.at)
    requires g.owner.ByWindow? ==> Fresh(g.owner.ts, g.at)
    requires Shut(start, p, d)
    ensures Shut(start, StartCall(p, g, seqno, fault, image), d)
  {
    var r := Start(p.cache, g.nonce, g.at, fault, image).1;
    var p' := StartCall(p, g, seqno, fault, image);
    if r.Waiting? {
      assert forall h :: Promised(p', h) ==> Promised(p, h) || h == g;
      if g.owner.ByWindow? && g.nonce == NameOf(d) {
        AskedWhenMissing(start, p, g, fault, image);
        MissingMakesStale(start, d, p.clock);
        assert !CanReplay(start, d, g.at, p.clock);
      }
    } else {
      assert forall h :: Promised(p', h) ==> Promised(p, h);
    }
  }

  lemma ArriveShuts(start: World, p: World, e: Event, d: Datagram)
    requires Inv(p) && Remembers(start, p) && e.Arrive? && Enabled(p, e) && Shut(start, p, d)
    ensures Shut(start, Apply(p, e), d)
  {
    var (win, v) := Enter(p.windows[e.id], e.seqno, e.ts, e.now);
    if v.Ask? {
      var purged := p.(windows := p.windows[e.id := win]);
      PurgedWindowKeeps(p, e.id, e.now);
      assert forall h :: Promised(purged, h) <==> Promised(p, h);
      var g := Grant(v.nonce, e.now, ByWindow(e.id, win.space, win.session, e.ts));
      StartShuts(start, purged, g, e.seqno, e.fault, e.image, d);
    } else {
      assert forall h :: Promised(Apply(p, e), h) <==> Promised(p, h);
    }
  }

  /** No event opens what is shut. */
  lemma StaysShut(start: World, p: World, e: Event, d: Datagram)
    requires Inv(p) && Remembers(start, p) && Enabled(p, e) && Shut(start, p, d)
    ensures Shut(start, Apply(p, e), d)
  {
    if e.ForeignStart? {
      StartShuts(start, p, Grant(e.nonce, e.at, Foreign), 0, e.fault', e.image', d);
    } else if e.Arrive? {
      ArriveShuts(start, p, e, d);
    } else {
      assert forall h :: Promised(Apply(p, e), h) ==> Promised(p, h);
      assert p.clock <= Apply(p, e).clock;
    }
  }

  /** What is accepted is fresh and has a promised bucket, or a call waited for it. */
  lemma ShutIsNotGained(start: World, p: World, e: Event, d: Datagram, k: nat)
    requires Inv(p) && Enabled(p, e) && Shut(start, p, d) && k < |Gained(p, e)|
    ensures Gained(p, e)[k].datagram != d
  {
    var gained := Gained(p, e)[k].datagram;
    if e.Arrive? {
      var win := p.windows[e.id];
      assert e.ts / BUCKET_SECONDS in win.buckets;
      assert HasGrant(p, e.id, Name(win.space, win.session, e.ts / BUCKET_SECONDS));
      var g :| g in p.granted && g.nonce == NameOf(gained) && g.owner.ByWindow? && g.owner.id == e.id;
      assert Promised(p, g) && FreshAt(gained, e.now, p.clock);
    } else {
      assert Promised(p, e.call.grant);
    }
  }

  // ---------------------------------------------------------------- every harmless run

  /** What the run has accepted and its shadow has forgotten is shut out. */
  ghost predicate LostIsShut(start: World, w: World, p: World) {
    forall a :: a in w.accepted && a !in p.accepted ==> Shut(start, p, a.datagram)
  }

  /** A run and its shadow, since the last crash `start` that took a left-over file. */
  ghost predicate Follows(start: World, w: World, p: World) {
    Alike(w, p) && Inv(p) && Remembers(start, p) && LostIsShut(start, w, p) && Once(w.accepted)
  }

  lemma GainedOnce(start: World, w: World, p: World, e: Event)
    requires Follows(start, w, p) && Enabled(p, e) && Once(p.accepted + Gained(p, e))
    ensures Once(w.accepted + Gained(p, e))
  {
    var more, n := Gained(p, e), |w.accepted|;
    var all := w.accepted + more;
    OnceTail(p.accepted, more);
    forall i, j | 0 <= i < j < |all| ensures all[i].datagram != all[j].datagram {
      if i < n <= j {
        OldIsNotGained(start, w, p, e, i, j - n);
      }
    }
  }

  lemma OnceTail(a: seq<Acceptance>, b: seq<Acceptance>)
    requires Once(a + b)
    ensures Once(b)
  {
    forall i, j | 0 <= i < j < |b| ensures b[i].datagram != b[j].datagram {
      assert (a + b)[|a| + i] == b[i] && (a + b)[|a| + j] == b[j];
    }
  }

  lemma OldIsNotGained(start: World, w: World, p: World, e: Event, i: nat, k: nat)
    requires Follows(start, w, p) && Enabled(p, e) && Once(p.accepted + Gained(p, e))
    requires i < |w.accepted| && k < |Gained(p, e)|
    ensures w.accepted[i].datagram != Gained(p, e)[k].datagram
  {
    var a, more := w.accepted[i], Gained(p, e);
    if a in p.accepted {
      var m :| 0 <= m < |p.accepted| && p.accepted[m] == a;
      assert (p.accepted + more)[m] == a && (p.accepted + more)[|p.accepted| + k] == more[k];
    } else {
      ShutIsNotGained(start, p, e, a.datagram, k);
    }
  }

  lemma StepFollows(start: World, w: World, p: World, e: Event)
    requires Follows(start, w, p) && Enabled(w, e) && !TakesLeftOver(w, e)
    ensures Enabled(p, e) && Follows(start, Apply(w, e), Apply(p, e))
  {
    AlikeStep(w, p, e);
    EventKeeps(p, e);
    GainedOnce(start, w, p, e);
    GrantedGrows(p, e);
    var w', p' := Apply(w, e), Apply(p, e);
    forall a | a in w'.accepted && a !in p'.accepted ensures Shut(start, p', a.datagram) {
      assert a in w.accepted && a !in p.accepted;
      StaysShut(start, p, e, a.datagram);
    }
    RemembersMore(start, p, p');
  }

  lemma GrantedGrows(p: World, e: Event)
    requires Enabled(p, e)
    ensures p.granted <= Apply(p, e).granted && p.clock <= Apply(p, e).clock
  {
  }

  lemma RemembersMore(start: World, p: World, p': World)
    requires Remembers(start, p) && p.granted <= p'.granted && p.clock <= p'.clock
    ensures Remembers(start, p')
  {
    forall n | n in start.cache.expires ensures Remembered(p'.granted, n, start.cache.expires[n]) {
      assert Remembered(p.granted, n, start.cache.expires[n]);
    }
  }

  lemma ForgetfulRemembers(w: World, image: seq<Record>, reload: Time)
    requires w.cache == Recovered(image, reload)
    ensures Remembers(w, Forgetful(w))
  {
    assert File(image, []).View() == image;
    forall n | n in w.cache.expires ensures Remembered(Forgetful(w).granted, n, w.cache.expires[n]) {
      LoadOnlyFromLog(image, reload, n);
      var g := Grant(n, w.cache.expires[n] - RETENTION, Foreign);
      assert g in Forgetful(w).granted && Deadline(g) * SECOND == w.cache.expires[n];
    }
  }

  /** What a harmless crash makes the shadow forget is shut out, and what was shut out stays so. */
  lemma ForgottenIsShut(start: World, w: World, p: World, w': World, p1: World, a: Acceptance)
    requires Follows(start, w, p) && !Replayable(w') && w'.accepted == w.accepted
    requires p1.calls == {} && p1.granted == p.granted && p1.accepted == p.accepted && p1.clock == p.clock
    requires a in w.accepted && a !in Forgetful(p1).accepted
    ensures Shut(w', Forgetful(p1), a.datagram)
  {
    var d, p' := a.datagram, Forgetful(p1);
    var i :| 0 <= i < |w'.accepted| && w'.accepted[i] == a;
    assert forall now, t :: !CanReplay(w', w'.accepted[i].datagram, now, t);
    forall g | Promised(p', g) && g.owner.ByWindow? && g.nonce == NameOf(d) ensures Stale(d, p'.clock) {
      assert g in p'.granted && Backed(p'.granted, d);
      if a in p.accepted {
        var j :| 0 <= j < |p.accepted| && p.accepted[j] == a;
        PickHas(p1.accepted, p'.granted, j);
      } else {
        assert Promised(p, g);
      }
    }
  }

  lemma CrashFollows(start: World, w: World, p: World, e: Event)
    requires Follows(start, w, p) && Enabled(w, e) && TakesLeftOver(w, e) && !Replayable(Apply(w, e))
    ensures Enabled(p, e) && Follows(Apply(w, e), Apply(w, e), Forgetful(Apply(p, e)))
  {
    AlikeStep(w, p, e);
    ForgetfulStep(p, e);
    var w', p1 := Apply(w, e), Apply(p, e);
    if e.Crash? {
      ForgetfulRemembers(p1, e.survivor, e.reload);
    } else {
      ForgetfulRemembers(p1, e.left, e.reopen);
    }
    forall a | a in w'.accepted && a !in Forgetful(p1).accepted ensures Shut(w', Forgetful(p1), a.datagram) {
      ForgottenIsShut(start, w, p, w', p1, a);
    }
  }

  lemma {:induction false} RunFollows(start: World, w: World, p: World, events: seq<Event>, end: World)
      returns (start': World, p': World)
    requires Follows(start, w, p) && Reaches(w, events, end) && Harmless(w, events)
    ensures Follows(start', end, p')
    decreases |events|
  {
    if events == [] {
      start', p' := start, p;
    } else {
      var e := events[0];
      if TakesLeftOver(w, e) {
        CrashFollows(start, w, p, e);
        start', p' := RunFollows(Apply(w, e), Apply(w, e), Forgetful(Apply(p, e)), events[1..], end);
      } else {
        StepFollows(start, w, p, e);
        start', p' := RunFollows(start, Apply(w, e), Apply(p, e), events[1..], end);
      }
    }
  }

  lemma InitialFollows(w: World)
    requires Initial(w)
    ensures Follows(w, w, w)
  {
    InitialInv(w);
    assert File([], []).View() == [];
  }

  // ---------------------------------------------------------------- the theorems

  /** Over any run (any windows, opened and dropped at any time, any callers of the cache, any file
      faults, crashes and exits at any point, restarts over whatever they leave) in which no crash that
      takes a left-over file leaves anything to replay, no datagram is accepted twice. */
  lemma NoDatagramTwice(w: World, events: seq<Event>, w': World, i: nat, j: nat)
    requires Initial(w) && Reaches(w, events, w') && Harmless(w, events)
    requires i < j < |w'.accepted|
    ensures w'.accepted[i].datagram != w'.accepted[j].datagram
  {
    InitialFollows(w);
    var start, p := RunFollows(w, w, w, events, w');
  }

  /** Every harmless run from here accepts each datagram once. */
  ghost predicate SafeForever(w: World) {
    forall after, end :: Reaches(w, after, end) && Harmless(w, after) ==> NoReplay(end)
  }

  lemma FollowedIsSafe(start: World, w: World, p: World)
    requires Follows(start, w, p)
    ensures SafeForever(w)
  {
    forall after, end | Reaches(w, after, end) && Harmless(w, after) ensures NoReplay(end) {
      var start', p' := RunFollows(start, w, p, after, end);
    }
  }

  lemma ReplayableIsUnsafe(w: World, image: seq<Record>, reload: Time)
    requires w.cache == Recovered(image, reload) && Replayable(w)
    ensures !SafeForever(w)
  {
    ReplayableLeads(w, image, reload);
    var events, end :| Reaches(w, events, end) && Clean(w, events) && !NoReplay(end);
    CleanIsHarmless(w, events);
  }

  lemma FollowedCrashIff(start: World, w: World, p: World, e: Event)
    requires Follows(start, w, p) && (e.Crash? || e.CrashInCompaction?) && Enabled(w, e)
    ensures SafeForever(Apply(w, e)) <==> !Replayable(Apply(w, e))
  {
    var w' := Apply(w, e);
    if Replayable(w') {
      if e.Crash? {
        ReplayableIsUnsafe(w', e.survivor, e.reload);
      } else {
        ReplayableIsUnsafe(w', e.left, e.reopen);
      }
    } else if TakesLeftOver(w, e) {
      CrashFollows(start, w, p, e);
      FollowedIsSafe(w', w', Forgetful(Apply(p, e)));
    } else {
      StepFollows(start, w, p, e);
      FollowedIsSafe(start, w', Apply(p, e));
    }
  }

  /** After a harmless run and a crash that leaves any file the disk may hold, left over or not: no
      datagram is ever accepted twice in any harmless continuation, if and only if nothing accepted so far
      can be replayed against the reloaded memory. */
  lemma CrashIsSafeIff(w0: World, before: seq<Event>, w: World, e: Event)
    requires Initial(w0) && Reaches(w0, before, w) && Harmless(w0, before)
    requires (e.Crash? || e.CrashInCompaction?) && Enabled(w, e)
    ensures SafeForever(Apply(w, e)) <==> !Replayable(Apply(w, e))
  {
    InitialFollows(w0);
    var start, p := RunFollows(w0, w0, w0, before, w);
    FollowedCrashIff(start, w, p, e);
  }

  /** After every crash of the run that takes a left-over file, the system is safe. */
  ghost predicate SafeAlong(w: World, events: seq<Event>)
    decreases |events|
  {
    events != [] && Enabled(w, events[0]) ==>
      && (TakesLeftOver(w, events[0]) ==> SafeForever(Apply(w, events[0])))
      && SafeAlong(Apply(w, events[0]), events[1..])
  }

  /** Over whole runs: a run is harmless if and only if each of its crashes leaves the system safe. */
  lemma HarmlessIff(w: World, events: seq<Event>)
    requires Initial(w)
    ensures Harmless(w, events) <==> SafeAlong(w, events)
  {
    InitialFollows(w);
    FollowedHarmlessIff(w, w, w, events);
  }

  lemma {:induction false} FollowedHarmlessIff(start: World, w: World, p: World, events: seq<Event>)
    requires Follows(start, w, p)
    ensures Harmless(w, events) <==> SafeAlong(w, events)
    decreases |events|
  {
    if events != [] && Enabled(w, events[0]) {
      var e := events[0];
      if TakesLeftOver(w, e) {
        FollowedCrashIff(start, w, p, e);
        if !Replayable(Apply(w, e)) {
          CrashFollows(start, w, p, e);
          FollowedHarmlessIff(Apply(w, e), Apply(w, e), Forgetful(Apply(p, e)), events[1..]);
        }
      } else {
        StepFollows(start, w, p, e);
        FollowedHarmlessIff(start, Apply(w, e), Apply(p, e), events[1..]);
      }
    }
  }
}
