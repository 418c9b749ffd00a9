/** What the admission system does not refuse: a fresh datagram with a new sequence number is accepted,
    at once when its window holds the bucket, and after the next group commit when the cache admits it. */
module Availability {
  import opened Clock
  import opened NonceCache
  import opened ReplayBitmap
  import opened BucketNames
  import opened Admission
  import opened AtMostOnce
  import opened Grants

  /** Never accepted by the window, and not 2048 or more below a number it has accepted. */
  ghost predicate NewNumber(win: Window, seqno: Seq64) {
    seqno !in win.seen && forall h :: h in win.seen ==> h < seqno + 2048
  }

  predicate HoldsBucket(win: Window, ts: Seq64, now: Time) {
    ts / 10 in win.buckets && win.buckets[ts / 10] > now
  }

  /** A window that holds the bucket accepts exactly the fresh datagrams with new numbers. */
  lemma HeldBucketDecides(w: World, id: nat, seqno: Seq64, ts: Seq64, now: Time, fault: Fault, image: seq<Record>)
    requires var e := Arrive(id, seqno, ts, now, fault, image); Enabled(w, e) && HoldsBucket(w.windows[id], ts, now)
    ensures var w', win := Apply(w, Arrive(id, seqno, ts, now, fault, image)), w.windows[id];
      && w'.cache == w.cache && w'.calls == w.calls
      && w'.accepted ==
           if Within30s(ts, now) && NewNumber(win, seqno)
           then w.accepted + [Acceptance(Datagram(win.space, win.session, ts, seqno), id)]
           else w.accepted
  {
    FreshMeansNear(ts, now);
  }

  /** The grant a window asks for. */
  function Asked(win: Window, id: nat, ts: Seq64, now: Time): Grant {
    Grant(Name(win.space, win.session, ts / 10), now, ByWindow(id, win.space, win.session, ts))
  }

  /** A new window has accepted nothing and holds no bucket. */
  lemma NewWindowIsEmpty(w: World, space: string, session: Seq64, seqno: Seq64, ts: Seq64, now: Time)
    ensures var w', id := Apply(w, OpenWindow(space, session)), w.nextId;
      && id in w'.windows && w'.windows[id].space == space && w'.windows[id].session == session
      && NewNumber(w'.windows[id], seqno) && !HoldsBucket(w'.windows[id], ts, now) && w'.cache == w.cache
  {
  }

  lemma EnterAsks(win: Window, seqno: Seq64, ts: Seq64, now: Time)
    requires Sane(now) && Within30s(ts, now) && !HoldsBucket(win, ts, now)
    ensures Enter(win, seqno, ts, now)
         == (win.(buckets := LiveBuckets(win.buckets, now)), Ask(Name(win.space, win.session, ts / 10)))
  {
    FreshMeansNear(ts, now);
  }

  /** A window that does not hold the bucket waits for the cache, if the cache has room for it. */
  lemma NewBucketWaits(w: World, id: nat, seqno: Seq64, ts: Seq64, now: Time, image: seq<Record>)
    requires Enabled(w, Arrive(id, seqno, ts, now, NoFault, image)) && w.cache.persistent
    requires Within30s(ts, now) && !HoldsBucket(w.windows[id], ts, now)
    requires HasRoom(w.cache, Name(w.windows[id].space, w.windows[id].session, ts / 10), now)
    ensures var w', win := Apply(w, Arrive(id, seqno, ts, now, NoFault, image)), w.windows[id];
      && Call(Asked(win, id, ts, now), seqno, w.cache.currentTx + 1) in w'.calls
      && Working(w'.cache) && w'.cache.persistent
      && w'.cache.currentTx == w.cache.currentTx + 1 && w'.cache.syncedTx == w.cache.syncedTx
      && id in w'.windows && w'.windows[id].(buckets := win.buckets) == win && w'.accepted == w.accepted
  {
    EnterAsks(w.windows[id], seqno, ts, now);
    StartOutcomes(w.cache, Name(w.windows[id].space, w.windows[id].session, ts / 10), now, NoFault, image);
  }

  /** After the commit, the call is answered, and the bitmap decides. */
  lemma WaitingIsServed(w: World, call: Call)
    requires call in w.calls && call.grant.owner.ByWindow? && call.grant.owner.id in w.windows
    requires Working(w.cache) && w.cache.persistent
    requires w.cache.syncedTx < w.cache.currentTx && call.tx <= w.cache.currentTx
    ensures var synced := Apply(w, Event.Commit(true)); Enabled(synced, Wake(call))
    ensures var w', o := Apply(Apply(w, Event.Commit(true)), Wake(call)), call.grant.owner;
      var win := w.windows[o.id];
      && o.id in w'.windows && o.ts / 10 in w'.windows[o.id].buckets
      && w'.windows[o.id].buckets[o.ts / 10] == call.grant.at + 180_000_000_000
      && w'.accepted ==
           if NewNumber(win, call.seqno)
           then w.accepted + [Acceptance(Datagram(win.space, win.session, o.ts, call.seqno), o.id)]
           else w.accepted
  {
  }

  /** In every reachable state of a working cache that has room and does not remember the bucket, whether
      or not a compaction is due: a fresh datagram with a new number is accepted once its record is
      synced. */
  lemma NewBucketIsServed(w0: World, before: seq<Event>, w: World, id: nat, seqno: Seq64, ts: Seq64, now: Time,
                          image: seq<Record>)
      returns (call: Call)
    requires Initial(w0) && Reaches(w0, before, w)
    requires Enabled(w, Arrive(id, seqno, ts, now, NoFault, image)) && Within30s(ts, now)
    requires !HoldsBucket(w.windows[id], ts, now) && NewNumber(w.windows[id], seqno)
    requires HasRoom(w.cache, Name(w.windows[id].space, w.windows[id].session, ts / 10), now)
    ensures var synced := Apply(Apply(w, Arrive(id, seqno, ts, now, NoFault, image)), Event.Commit(true));
      && Enabled(synced, Wake(call))
      && Apply(synced, Wake(call)).accepted ==
           w.accepted + [Acceptance(Datagram(w.windows[id].space, w.windows[id].session, ts, seqno), id)]
  {
    InitialInv(w0);
    var p := RunStands(w0, w0, {}, before, w);
    NewBucketWaits(w, id, seqno, ts, now, image);
    call := Call(Asked(w.windows[id], id, ts, now), seqno, w.cache.currentTx + 1);
    WaitingIsServed(Apply(w, Arrive(id, seqno, ts, now, NoFault, image)), call);
  }
}
