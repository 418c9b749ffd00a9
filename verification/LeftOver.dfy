/** Crashes that bring back a file left over from an earlier process.

    A compaction that does not reach its directory sync leaves a file that the path may name again after
    a machine crash.  The process that is restarted does not know of it.  `ReplayAfterLeftOver` is a run
    from an empty log in which such a crash makes the system accept a datagram twice; `CrashSafety` gives
    the exact condition. */
module LeftOver {
  import opened Clock
  import opened Sets
  import opened NonceCache
  import opened Admission
  import opened AtMostOnce

  // ---------------------------------------------------------------- runs that end in a replay

  /** Some run from `w`, without a crash that takes a left-over file if `clean`, accepts a datagram
      twice. */
  ghost predicate Leads(w: World, clean: bool) {
    exists events, end :: Reaches(w, events, end) && (clean ==> Clean(w, events)) && !NoReplay(end)
  }

  lemma Back(w: World, e: Event, clean: bool)
    requires Enabled(w, e) && (clean ==> !TakesLeftOver(w, e)) && Leads(Apply(w, e), clean)
    ensures Leads(w, clean)
  {
    var next := Apply(w, e);
    var events, end :| Reaches(next, events, end) && (clean ==> Clean(next, events)) && !NoReplay(end);
    var all := [e] + events;
    assert all[0] == e && all[1..] == events;
    assert Reaches(w, all, end) && (clean ==> Clean(w, all));
  }

  // ---------------------------------------------------------------- accepting a datagram

  /** A cache that will admit the nonce without a compaction. */
  predicate Admitting(c: Cache, nonce: string, now: Time) {
    && c.persistent && c.open && !c.closed && !c.failed
    && c.syncedTx <= c.currentTx && c.writesSince < COMPACT_AFTER
    && nonce !in Live(c.expires, now) && |Live(c.expires, now)| < CAPACITY
  }

  function Inserted(c: Cache, nonce: string, now: Time): Cache {
    Appended(c.(expires := Live(c.expires, now)), nonce, now)
  }

  lemma StartInserts(c: Cache, nonce: string, now: Time)
    requires Admitting(c, nonce, now)
    ensures Start(c, nonce, now, NoFault, []) == (Inserted(c, nonce, now), Waiting(c.currentTx + 1))
  {
  }

  /** A window was just opened for the datagram. */
  predicate Awaits(w: World, id: nat, d: Datagram) {
    id in w.windows && w.windows[id] == Window(d.space, d.session, map[], {})
  }

  function CallFor(w: World, id: nat, d: Datagram, now: Time): Call {
    Call(Grant(NameOf(d), now, ByWindow(id, d.space, d.session, d.ts)), d.seqno, w.cache.currentTx + 1)
  }

  function Asking(w: World, id: nat, d: Datagram, now: Time): World {
    w.(cache := Inserted(w.cache, NameOf(d), now), calls := w.calls + {CallFor(w, id, d, now)})
  }

  lemma ArriveAsks(w: World, id: nat, d: Datagram, now: Time)
    requires Awaits(w, id, d) && Timely(w, now) && Fresh(d.ts, now) && Admitting(w.cache, NameOf(d), now)
    ensures ArriveAt(w, id, d.seqno, d.ts, now, NoFault, []) == Asking(w, id, d, now)
  {
    var win := w.windows[id];
    assert LiveBuckets(win.buckets, now) == map[];
    assert Enter(win, d.seqno, d.ts, now) == (win, Ask(NameOf(d)));
    assert w.windows[id := win] == w.windows;
    StartInserts(w.cache, NameOf(d), now);
  }

  lemma ArriveBack(w: World, id: nat, d: Datagram, now: Time, clean: bool)
    requires Awaits(w, id, d) && Timely(w, now) && Fresh(d.ts, now) && Admitting(w.cache, NameOf(d), now)
    requires Leads(Asking(w, id, d, now), clean)
    ensures Leads(w, clean)
  {
    var e := Arrive(id, d.seqno, d.ts, now, NoFault, []);
    ArriveAsks(w, id, d, now);
    assert Enabled(w, e) && Apply(w, e) == Asking(w, id, d, now);
    Back(w, e, clean);
  }

  lemma CommitBack(w: World, clean: bool)
    requires Leads(w.(cache := Committed(w.cache, true)), clean)
    ensures Leads(w, clean)
  {
    Back(w, Event.Commit(true), clean);
  }

  function Opening(w: World, d: Datagram): World {
    w.(windows := w.windows[w.nextId := Window(d.space, d.session, map[], {})], nextId := w.nextId + 1)
  }

  /** A window is opened, the datagram arrives, its record is synced, and the call is answered. */
  ghost function Accepting(w: World, d: Datagram, now: Time): World {
    var asking := Asking(Opening(w, d), w.nextId, d, now);
    AnswerCall(asking.(cache := Committed(asking.cache, true)), CallFor(w, w.nextId, d, now))
  }

  lemma AcceptingAccepts(w: World, d: Datagram, now: Time)
    requires Admitting(w.cache, NameOf(d), now)
    ensures var w' := Accepting(w, d, now);
            && w'.accepted == w.accepted + [Acceptance(d, w.nextId)] && w'.clock == w.clock
            && w'.cache == Committed(Inserted(w.cache, NameOf(d), now), true)
  {
  }

  lemma AcceptingBack(w: World, d: Datagram, now: Time, clean: bool)
    requires Timely(w, now) && Fresh(d.ts, now) && Admitting(w.cache, NameOf(d), now)
    requires Leads(Accepting(w, d, now), clean)
    ensures Leads(w, clean)
  {
    var id, opening := w.nextId, Opening(w, d);
    var asking := Asking(opening, id, d, now);
    var synced := asking.(cache := Committed(asking.cache, true));
    Back(synced, Wake(CallFor(w, id, d, now)), clean);
    CommitBack(asking, clean);
    ArriveBack(opening, id, d, now, clean);
    Back(w, OpenWindow(d.space, d.session), clean);
  }

  // ---------------------------------------------------------------- a datagram accepted twice

  const FIRST := World(0, Recovered([], 0), map[], 0, {}, {}, [])

  function Nonce(i: nat): (s: string)
    ensures |s| == i + 1
  {
    seq(i + 1, _ => 'n')
  }

  /** `k` nonces admitted at instant 0, as records and as memory. */
  function Records(k: nat): (r: seq<Record>)
    ensures |r| == k
  {
    seq(k, i requires 0 <= i < k => Record(Nonce(i), 180))
  }

  function Memory(k: nat): map<string, Time> {
    if k == 0 then map[] else Memory(k - 1)[Nonce(k - 1) := RETENTION]
  }

  lemma {:induction false} MemoryHas(k: nat)
    ensures |Memory(k)| == k
    ensures forall n :: n in Memory(k) ==> Memory(k)[n] == RETENTION && 0 < |n| <= k && n == Nonce(|n| - 1)
  {
    if k > 0 {
      MemoryHas(k - 1);
      assert Memory(k).Keys == Memory(k - 1).Keys + {Nonce(k - 1)};
    }
  }

  /** The cache after `k` admissions that no commit has covered yet. */
  function Filled(k: nat): Cache {
    Cache(Memory(k), Disk(File([], Records(k)), None, []), true, true, k, k, 0, false, false)
  }

  lemma FillReady(k: nat)
    requires k < COMPACT_AFTER
    ensures Live(Memory(k), 0) == Memory(k) && Admitting(Filled(k), Nonce(k), 0)
  {
    MemoryHas(k);
    assert Live(Memory(k), 0) == Memory(k);
  }

  lemma FillOne(k: nat)
    requires k < COMPACT_AFTER
    ensures Inserted(Filled(k), Nonce(k), 0) == Filled(k + 1)
  {
    FillReady(k);
    assert Records(k) + [Record(Nonce(k), 180)] == Records(k + 1);
  }

  const TWICE := Datagram("", 0, 0, 0)

  lemma {:induction false} LoadedSize(log: seq<Record>, now: Time)
    ensures |Loaded(log, now)| <= |log|
  {
    if log != [] {
      var front := log[..|log| - 1];
      LoadedSize(front, now);
      var r := log[|log| - 1];
      assert Loaded(front, now)[r.nonce := r.expiry * SECOND].Keys == Loaded(front, now).Keys + {r.nonce};
    }
  }

  /** A process that loaded those records admits the datagram's bucket. */
  lemma LoadedAdmits(c: Cache, k: nat)
    requires k < CAPACITY
    requires c == Recovered(Records(k), 0) || c == Opened(Disk(File(Records(k), []), Some(File(Records(k), [])), []), 0)
    ensures Admitting(c, NameOf(TWICE), 0)
  {
    var log := Records(k);
    assert File(log, []).View() == log;
    LoadedSize(log, 0);
    assert Live(c.expires, 0).Keys <= c.expires.Keys;
    Fewer(Live(c.expires, 0).Keys, c.expires.Keys);
    forall i | 0 <= i < |log| ensures log[i].nonce != NameOf(TWICE) {
      assert NameOf(TWICE)[0] == 'u' && Nonce(i)[0] == 'n';
    }
    NotLoaded(log, 0, NameOf(TWICE));
  }

  lemma {:induction false} NotLoaded(log: seq<Record>, now: Time, nonce: string)
    requires forall i :: 0 <= i < |log| ==> log[i].nonce != nonce
    ensures nonce !in Loaded(log, now)
  {
    if log != [] {
      var front := log[..|log| - 1];
      assert forall i :: 0 <= i < |front| ==> front[i] == log[i];
      NotLoaded(front, now, nonce);
    }
  }

  /** After the crash: the datagram is accepted again. */
  lemma AcceptedAgain(w: World, k: nat)
    requires COMPACT_AFTER <= k < CAPACITY && w.clock == 0 && w.cache == Recovered(Records(k), 0)
    requires w.accepted != [] && w.accepted[0].datagram == TWICE
    ensures Leads(w, false)
  {
    LoadedAdmits(w.cache, k);
    var w' := Accepting(w, TWICE, 0);
    AcceptingAccepts(w, TWICE, 0);
    assert w'.accepted[0].datagram == w'.accepted[|w.accepted|].datagram;
    assert Reaches(w', [], w');
    AcceptingBack(w, TWICE, 0, false);
  }

  lemma WholeSurvives(d: Disk, i: nat)
    requires i < |d.leftOver| && d.leftOver[i].unsynced == []
    ensures Survives(d, d.leftOver[i].durable)
  {
    var f := d.leftOver[i];
    assert f.durable == f.durable + f.unsynced[..0];
    assert SurvivesIn(d.leftOver[i], f.durable);
  }

  /** After the restart: the datagram is accepted, and a crash brings back the left-over file. */
  lemma AcceptedThenLost(w: World, k: nat)
    requires COMPACT_AFTER <= k < CAPACITY && w.clock == 0 && w.accepted == []
    requires w.cache == Opened(Disk(File(Records(k), []), Some(File(Records(k), [])), []), 0)
    ensures Leads(w, false)
  {
    LoadedAdmits(w.cache, k);
    var w' := Accepting(w, TWICE, 0);
    AcceptingAccepts(w, TWICE, 0);
    assert w'.cache.disk.leftOver == [File(Records(k), [])];
    WholeSurvives(w'.cache.disk, 0);
    var crash := Crash(Records(k), 0);
    AcceptedAgain(Apply(w', crash), k);
    Back(w', crash, false);
    AcceptingBack(w, TWICE, 0, false);
  }

  lemma RecordsAreImage(k: nat)
    ensures IsImageOf(Records(k), Memory(k))
  {
    var r, m := Records(k), Memory(k);
    MemoryHas(k);
    MemoryAll(k);
    forall i, j | 0 <= i < j < |r| ensures r[i].nonce != r[j].nonce {
      assert |r[i].nonce| == i + 1 && |r[j].nonce| == j + 1;
    }
    forall n | n in m ensures Holds(r, n, 180) {
      assert r[|n| - 1].nonce == n;
    }
    assert Unix(RETENTION) == 180;
  }

  lemma {:induction false} MemoryAll(k: nat)
    ensures forall i :: 0 <= i < k ==> Nonce(i) in Memory(k)
  {
    if k > 0 {
      MemoryAll(k - 1);
    }
  }

  /** The full log, synced. */
  function Synced(k: nat): Cache {
    Cache(Memory(k), Disk(File(Records(k), []), None, []), true, true, k, k, k, false, false)
  }

  lemma CompactionFails(k: nat)
    requires COMPACT_AFTER <= k < CAPACITY
    ensures var (c, r) := Start(Synced(k), Nonce(k), 0, DirSyncFailed, Records(k));
            && c == Synced(k).(disk := Disk(File(Records(k), []), Some(File(Records(k), [])), []), failed := true)
            && r == Refused
  {
    MemoryHas(k);
    assert Live(Memory(k), 0) == Memory(k);
  }

  lemma RestartsOver(w: World, k: nat)
    requires COMPACT_AFTER <= k < CAPACITY && w.clock == 0 && w.accepted == []
    requires w.cache == Synced(k).(disk := Disk(File(Records(k), []), Some(File(Records(k), [])), []), failed := true)
    ensures Leads(w, false)
  {
    AcceptedThenLost(Apply(w, Exit(0)), k);
    Back(w, Exit(0), false);
  }

  /** With the log full and synced: a compaction whose directory sync fails, and a restart. */
  lemma CompactsThenExits(w: World, k: nat)
    requires COMPACT_AFTER <= k < CAPACITY && w.clock == 0 && w.accepted == [] && w.cache == Synced(k)
    ensures Leads(w, false)
  {
    RecordsAreImage(k);
    MemoryHas(k);
    assert Live(Memory(k), 0) == Memory(k);
    CompactionFails(k);
    var e := ForeignStart(Nonce(k), 0, DirSyncFailed, Records(k));
    RestartsOver(Apply(w, e), k);
    Back(w, e, false);
  }

  lemma {:induction false} FillsUp(w: World, i: nat, k: nat)
    requires i <= k == COMPACT_AFTER && w == FIRST.(cache := Filled(i), calls := w.calls)
    ensures Leads(w, false)
    decreases k - i
  {
    if i == k {
      assert File([], Records(k)).View() == Records(k);
      CompactsThenExits(w.(cache := Committed(w.cache, true)), k);
      CommitBack(w, false);
    } else {
      var e := ForeignStart(Nonce(i), 0, NoFault, []);
      FillReady(i);
      StartInserts(Filled(i), Nonce(i), 0);
      FillOne(i);
      FillsUp(Apply(w, e), i + 1, k);
      Back(w, e, false);
    }
  }

  /** From an empty log: ten thousand admissions, a compaction that is renamed but not synced, a restart,
      one datagram accepted, a crash that brings the older file back, and the same datagram accepted
      again. */
  lemma ReplayAfterLeftOver()
    ensures exists w, events, w', i: nat, j: nat ::
      && Initial(w) && Reaches(w, events, w')
      && i < j < |w'.accepted| && w'.accepted[i].datagram == w'.accepted[j].datagram
  {
    assert File([], []).View() == [];
    assert Initial(FIRST) && FIRST == FIRST.(cache := Filled(0), calls := {});
    FillsUp(FIRST, 0, COMPACT_AFTER);
    var events, end :| Reaches(FIRST, events, end) && !NoReplay(end);
    var i: nat, j: nat :| i < j < |end.accepted| && end.accepted[i].datagram == end.accepted[j].datagram;
    assert Initial(FIRST) && Reaches(FIRST, events, end);
  }
}
