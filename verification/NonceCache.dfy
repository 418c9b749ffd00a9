/** Instants are nanoseconds; the log stores whole seconds, rounded down as time.Time.Unix does. */
module Clock {
  type Time = int

  const SECOND: Time := 1_000_000_000

  function Unix(t: Time): int { t / SECOND }
}

/** The nonce cache of pkg/auth/auth.go: a map of expiries with a lazily cleaned expiry heap, over an
    append-only log with group commit, compaction by rename, and reload.

    `Cache` and the functions on it are the specification; the class `ReplayCache` does the work and
    is proved against them.  `Accept` blocks on a condition variable until its record is synced, so it
    is modelled by its two critical sections, `AcceptStart` and `AcceptFinish`. */
module NonceCache {
  import opened Clock

  datatype Option<T> = None | Some(value: T)

  const RETENTION: Time := 180 * SECOND
  const CAPACITY := 200_000
  const COMPACT_AFTER := 10_000

  // ---------------------------------------------------------------- disk

  datatype Record = Record(nonce: string, expiry: int)

  /** Contents of one file: what the last sync covered, then what a crash may cut anywhere. */
  datatype File = File(durable: seq<Record>, unsynced: seq<Record>) {
    function View(): seq<Record> { durable + unsynced }
  }

  /** `replaced` is the file the path pointed to before a rename whose directory entry is not yet
      synced; `leftOver` are such files from before the process started. After a crash the path may
      point to any of them, until a directory sync. */
  datatype Disk = Disk(file: File, replaced: Option<File>, leftOver: seq<File>)

  ghost predicate SurvivesIn(f: File, image: seq<Record>) {
    exists k: nat :: k <= |f.unsynced| && image == f.durable + f.unsynced[..k]
  }

  /** A crash leaves the current file, or the one this process has replaced. */
  ghost predicate Current(d: Disk, image: seq<Record>) {
    SurvivesIn(d.file, image) || (d.replaced.Some? && SurvivesIn(d.replaced.value, image))
  }

  ghost predicate Survives(d: Disk, image: seq<Record>) {
    Current(d, image) || exists i :: 0 <= i < |d.leftOver| && SurvivesIn(d.leftOver[i], image)
  }

  /** The log mentions the nonce with an expiry of at least `e` seconds. */
  ghost predicate Holds(log: seq<Record>, nonce: string, e: int) {
    exists i :: 0 <= i < |log| && log[i].nonce == nonce && log[i].expiry >= e
  }

  lemma HoldsInLonger(log: seq<Record>, more: seq<Record>, nonce: string, e: int)
    requires Holds(log, nonce, e) && log <= more
    ensures Holds(more, nonce, e)
  {
    var i :| 0 <= i < |log| && log[i].nonce == nonce && log[i].expiry >= e;
    assert more[i] == log[i];
  }

  /** What a surviving image of the current files keeps: the records synced in both. */
  lemma SurvivorKeeps(d: Disk, image: seq<Record>, nonce: string, e: int)
    requires Current(d, image)
    requires Holds(d.file.durable, nonce, e)
    requires d.replaced.Some? ==> Holds(d.replaced.value.durable, nonce, e)
    ensures Holds(image, nonce, e)
  {
    if SurvivesIn(d.file, image) {
      HoldsInLonger(d.file.durable, image, nonce, e);
    } else {
      HoldsInLonger(d.replaced.value.durable, image, nonce, e);
    }
  }

  // ---------------------------------------------------------------- specification of the cache

  datatype Cache = Cache(
    expires: map<string, Time>,
    disk: Disk,
    persistent: bool,
    open: bool,
    writesSince: nat,
    currentTx: nat,
    syncedTx: nat,
    failed: bool,
    closed: bool)

  /** The naive filter the map and heap stand for. */
  function Live(expires: map<string, Time>, now: Time): map<string, Time> {
    map n | n in expires && expires[n] > now :: expires[n]
  }

  /** A compacted log: one record per nonce, in any order, expiry rounded down. */
  ghost predicate IsImageOf(image: seq<Record>, expires: map<string, Time>) {
    && (forall i :: 0 <= i < |image| ==>
          image[i].nonce in expires && image[i].expiry == Unix(expires[image[i].nonce]))
    && (forall i, j :: 0 <= i < j < |image| ==> image[i].nonce != image[j].nonce)
    && (forall n :: n in expires ==> Holds(image, n, Unix(expires[n])))
  }

  function Loaded(log: seq<Record>, now: Time): map<string, Time> {
    if log == [] then map[]
    else
      var before := Loaded(log[..|log| - 1], now);
      var r := log[|log| - 1];
      if r.expiry * SECOND > now then before[r.nonce := r.expiry * SECOND] else before
  }

  /** What the next process finds: a file that was replaced and may come back is left over. */
  function Inherited(d: Disk): Disk {
    Disk(d.file, None, if d.replaced.Some? then d.leftOver + [d.replaced.value] else d.leftOver)
  }

  function Opened(d: Disk, now: Time): Cache {
    Cache(Loaded(d.file.View(), now), Inherited(d), true, true, 0, 0, 0, false, false)
  }

  /** After a crash the path names one file for good. */
  function Recovered(image: seq<Record>, now: Time): Cache { Opened(Disk(File(image, []), None, []), now) }

  function Fail(c: Cache): Cache { c.(failed := true) }

  function Renamed(c: Cache, image: seq<Record>): Cache {
    c.(disk := Disk(File(image, []), Some(c.disk.file), c.disk.leftOver))
  }

  function DirectorySynced(c: Cache): Cache {
    c.(disk := c.disk.(replaced := None, leftOver := []), writesSince := 0)
  }

  function WithRecord(d: Disk, nonce: string, now: Time): Disk {
    d.(file := d.file.(unsynced := d.file.unsynced + [Record(nonce, Unix(now + RETENTION))]))
  }

  function Appended(c: Cache, nonce: string, now: Time): Cache {
    c.(disk := WithRecord(c.disk, nonce, now),
       writesSince := c.writesSince + 1,
       currentTx := c.currentTx + 1,
       expires := c.expires[nonce := now + RETENTION])
  }

  /** What the environment does to the file operations of one Accept.  A failed write may or may not
      have left its record in the file. */
  datatype Fault = NoFault | TempFailed | RenameFailed | ReopenFailed | DirSyncFailed | WriteFailed(landed: bool)

  datatype Outcome = Refused | Duplicate | Full | Granted | Waiting(tx: nat)

  predicate Inserts(o: Outcome) { o.Granted? || o.Waiting? }

  function CompactionOf(c: Cache, fault: Fault, image: seq<Record>): Cache {
    match fault
    case TempFailed => Fail(c)
    case RenameFailed => Fail(c)
    case ReopenFailed => Fail(Renamed(c, image).(open := false))
    case DirSyncFailed => Fail(Renamed(c, image))
    case _ => DirectorySynced(Renamed(c, image))
  }

  /** The record is written, then the nonce enters the map. */
  function Logged(c: Cache, nonce: string, now: Time, fault: Fault): (Cache, Outcome) {
    if fault.WriteFailed? then
      (Fail(if fault.landed then c.(disk := WithRecord(c.disk, nonce, now)) else c), Refused)
    else
      (Appended(c, nonce, now), if c.persistent then Waiting(c.currentTx + 1) else Granted)
  }

  /** The insertion of a nonce that passed every check: compaction when due, the log record, the map
      entry. `image` is the order in which compaction happens to visit the map. */
  function Insert(c: Cache, nonce: string, now: Time, fault: Fault, image: seq<Record>): (Cache, Outcome) {
    if !c.open then (c.(expires := c.expires[nonce := now + RETENTION]), Granted)
    else
      var c := if c.writesSince >= COMPACT_AFTER then CompactionOf(c, fault, image) else c;
      if c.failed then (c, Refused) else Logged(c, nonce, now, fault)
  }

  /** Everything Accept does before it waits. */
  function Start(c: Cache, nonce: string, now: Time, fault: Fault, image: seq<Record>): (Cache, Outcome) {
    if c.closed || c.failed then (c, Refused)
    else if c.persistent && !c.open then (Fail(c), Refused)
    else
      var c := c.(expires := Live(c.expires, now));
      if nonce in c.expires then (c, Duplicate)
      else if |c.expires| >= CAPACITY then (c, Full)
      else Insert(c, nonce, now, fault, image)
  }

  // ---------------------------------------------------------------- what an Accept answers

  /** Neither closed nor failed, and with its file if it needs one. */
  predicate Working(c: Cache) { !c.closed && !c.failed && (c.persistent ==> c.open) }

  predicate IsLive(c: Cache, nonce: string, now: Time) { nonce in c.expires && c.expires[nonce] > now }

  function LiveCount(c: Cache, now: Time): nat { |set n | n in c.expires && c.expires[n] > now| }

  predicate HasRoom(c: Cache, nonce: string, now: Time) {
    Working(c) && !IsLive(c, nonce, now) && LiveCount(c, now) < 200_000
  }

  /** The fault hits: the write of the record fails, or a compaction is due and fails. */
  predicate Strikes(c: Cache, fault: Fault) {
    c.open && (fault.WriteFailed? || (c.writesSince >= 10_000 && fault != NoFault))
  }

  /** When each answer is given.  An admission needs room and no fault, whether or not a compaction is
      due; the cache works on and remembers the nonce for 180 s. */
  predicate Outcomes(c: Cache, c': Cache, nonce: string, now: Time, fault: Fault, r: Outcome) {
    && (r == Duplicate <==> Working(c) && IsLive(c, nonce, now))
    && (r == Full <==> Working(c) && !IsLive(c, nonce, now) && LiveCount(c, now) >= 200_000)
    && (r == Refused <==> !Working(c) || (HasRoom(c, nonce, now) && Strikes(c, fault)))
    && (r == Refused ==> c'.closed || c'.failed)
    && (r == Granted <==> HasRoom(c, nonce, now) && !Strikes(c, fault) && !(c.open && c.persistent))
    && (r == Waiting(c.currentTx + 1) <==> HasRoom(c, nonce, now) && !Strikes(c, fault) && c.open && c.persistent)
    && (r.Waiting? ==> r.tx == c.currentTx + 1)
    && (Inserts(r) ==> Working(c') && nonce in c'.expires && c'.expires[nonce] == now + 180_000_000_000)
  }

  /** A caller that waits has its record at the end of the log, which was compacted if that was due. */
  predicate WaitsFor(c: Cache, c': Cache, nonce: string, now: Time, image: seq<Record>, tx: nat) {
    && c'.currentTx == tx
    && c'.disk.file.View() == (if c.writesSince >= 10_000 then image else c.disk.file.View())
                              + [Record(nonce, (now + 180_000_000_000) / 1_000_000_000)]
    && c'.writesSince == if c.writesSince >= 10_000 then 1 else c.writesSince + 1
  }

  lemma StartOutcomes(c: Cache, nonce: string, now: Time, fault: Fault, image: seq<Record>)
    ensures var (c', r) := Start(c, nonce, now, fault, image);
      Outcomes(c, c', nonce, now, fault, r) && (r.Waiting? ==> WaitsFor(c, c', nonce, now, image, r.tx))
  {
    assert Live(c.expires, now).Keys == set n | n in c.expires && c.expires[n] > now;
    var kept := c.(expires := Live(c.expires, now));
    if HasRoom(c, nonce, now) {
      InsertOutcome(kept, nonce, now, fault, image);
    }
  }

  lemma InsertOutcome(c: Cache, nonce: string, now: Time, fault: Fault, image: seq<Record>)
    requires Working(c)
    ensures var (c', r) := Insert(c, nonce, now, fault, image);
      && (r == Refused <==> Strikes(c, fault)) && (r == Refused ==> c'.failed)
      && (r != Refused ==> && r == (if c.open && c.persistent then Waiting(c.currentTx + 1) else Granted)
                           && Working(c') && nonce in c'.expires && c'.expires[nonce] == now + 180_000_000_000)
      && (r.Waiting? ==> WaitsFor(c, c', nonce, now, image, r.tx))
  {
    var log := if c.writesSince >= COMPACT_AFTER then image else c.disk.file.View();
    var record := [Record(nonce, Unix(now + RETENTION))];
    assert c.disk.file.durable + (c.disk.file.unsynced + record) == c.disk.file.View() + record;
    assert image + ([] + record) == image + record;
  }

  /** Whether that Accept reaches compaction. */
  predicate Compacts(c: Cache, nonce: string, now: Time) {
    var kept := Live(c.expires, now);
    !c.closed && !c.failed && c.open && nonce !in kept && |kept| < CAPACITY && c.writesSince >= COMPACT_AFTER
  }

  /** One tick of the group-commit loop. After a failure a later sync proves nothing, so it is not
      credited with making anything durable. */
  function Committed(c: Cache, ok: bool): Cache {
    if !c.open || c.currentTx <= c.syncedTx then c
    else if !ok then Fail(c)
    else
      var c := c.(syncedTx := c.currentTx);
      if c.failed then c else c.(disk := c.disk.(file := File(c.disk.file.View(), [])))
  }

  datatype Answer = Unfinished | Answered(granted: bool)

  /** The wait loop of Accept, evaluated each time the caller is woken. */
  function Finish(c: Cache, tx: nat): Answer {
    if c.syncedTx < tx && !c.failed then Unfinished else Answered(!c.failed)
  }

  // ---------------------------------------------------------------- lemmas about the specification

  /** Reload keeps every nonce whose record has not expired. */
  lemma {:induction false} LoadKeeps(log: seq<Record>, now: Time, nonce: string, e: int)
    requires Holds(log, nonce, e) && e * SECOND > now
    ensures nonce in Loaded(log, now)
  {
    var n := |log|;
    var i :| 0 <= i < n && log[i].nonce == nonce && log[i].expiry >= e;
    if i < n - 1 {
      assert log[..n - 1][i] == log[i];
      LoadKeeps(log[..n - 1], now, nonce, e);
    }
  }

  /** When a record has no later live record of its nonce, reload keeps exactly its expiry. */
  lemma {:induction false} LoadExact(log: seq<Record>, now: Time, i: nat)
    requires i < |log| && log[i].expiry * SECOND > now
    requires forall j :: i < j < |log| ==> log[j].nonce != log[i].nonce
    ensures log[i].nonce in Loaded(log, now) && Loaded(log, now)[log[i].nonce] == log[i].expiry * SECOND
  {
    var n := |log|;
    if i < n - 1 {
      var front := log[..n - 1];
      assert front[i] == log[i];
      assert forall j :: i < j < n - 1 ==> front[j] == log[j];
      LoadExact(front, now, i);
      assert log[n - 1].nonce != log[i].nonce;
    }
  }

  lemma {:induction false} LoadOnlyFromLog(log: seq<Record>, now: Time, nonce: string)
    requires nonce in Loaded(log, now)
    ensures Loaded(log, now)[nonce] > now
    ensures exists i :: 0 <= i < |log| && log[i].nonce == nonce && log[i].expiry * SECOND == Loaded(log, now)[nonce]
  {
    var n := |log|;
    if !(log[n - 1].nonce == nonce && log[n - 1].expiry * SECOND > now) {
      LoadOnlyFromLog(log[..n - 1], now, nonce);
      var i :| 0 <= i < n - 1 && log[..n - 1][i].nonce == nonce
               && log[..n - 1][i].expiry * SECOND == Loaded(log[..n - 1], now)[nonce];
      assert log[i] == log[..n - 1][i];
    }
  }

  /** The steps one process can put a cache through. */
  datatype Step =
    | StartStep(nonce: string, now: Time, fault: Fault, image: seq<Record>)
    | CheckStep(at: Time)
    | CommitStep(ok: bool)
    | CloseStep

  function Next(c: Cache, s: Step): Cache {
    match s
    case StartStep(nonce, now, fault, image) => Start(c, nonce, now, fault, image).0
    case CheckStep(at) => c.(expires := Live(c.expires, at))
    case CommitStep(ok) => Committed(c, ok)
    case CloseStep => c.(closed := true)
  }

  function Run(c: Cache, steps: seq<Step>): Cache {
    if steps == [] then c else Next(Run(c, steps[..|steps| - 1]), steps[|steps| - 1])
  }

  /** Once a cache has failed, no call ever answers true, whatever happens in between: not a new one, not
      one already waiting. */
  lemma {:induction false} FailureIsFinal(c: Cache, steps: seq<Step>, nonce: string, now: Time,
                                          fault: Fault, image: seq<Record>, tx: nat)
    requires c.failed
    ensures var later := Run(c, steps);
            && later.failed
            && Start(later, nonce, now, fault, image) == (later, Refused)
            && Finish(later, tx) == Answered(false)
  {
    if steps != [] {
      FailureIsFinal(c, steps[..|steps| - 1], nonce, now, fault, image, tx);
    }
  }

  function Instant(s: Step, default: Time): Time {
    match s
    case StartStep(_, now, _, _) => now
    case CheckStep(at) => at
    case _ => default
  }

  lemma {:induction false} TransactionsStayOrdered(c: Cache, steps: seq<Step>)
    requires c.syncedTx <= c.currentTx
    ensures Run(c, steps).syncedTx <= Run(c, steps).currentTx
  {
    if steps != [] {
      TransactionsStayOrdered(c, steps[..|steps| - 1]);
      NextKeepsTransactions(Run(c, steps[..|steps| - 1]), steps[|steps| - 1]);
    }
  }

  lemma NextKeepsTransactions(c: Cache, s: Step)
    requires c.syncedTx <= c.currentTx
    ensures Next(c, s).syncedTx <= Next(c, s).currentTx
  {
    match s
    case StartStep(nonce, now, fault, image) =>
      InsertKeepsTransactions(c.(expires := Live(c.expires, now)), nonce, now, fault, image);
    case _ =>
  }

  lemma InsertKeepsTransactions(c: Cache, nonce: string, now: Time, fault: Fault, image: seq<Record>)
    requires c.syncedTx <= c.currentTx
    ensures Insert(c, nonce, now, fault, image).0.syncedTx <= Insert(c, nonce, now, fault, image).0.currentTx
  {
  }

  lemma StartKeepsEntry(c: Cache, nonce: string, other: string, now: Time, fault: Fault, image: seq<Record>)
    requires nonce in c.expires && now < c.expires[nonce]
    ensures nonce in Start(c, other, now, fault, image).0.expires
    ensures Start(c, other, now, fault, image).0.expires[nonce] == c.expires[nonce]
  {
    assert nonce in Live(c.expires, now);
  }

  /** While no call has looked at the clock at or after its expiry, an entry stays as it was written. */
  lemma {:induction false} EntryStays(c: Cache, steps: seq<Step>, nonce: string)
    requires nonce in c.expires
    requires forall i :: 0 <= i < |steps| ==> Instant(steps[i], c.expires[nonce] - 1) < c.expires[nonce]
    ensures nonce in Run(c, steps).expires && Run(c, steps).expires[nonce] == c.expires[nonce]
  {
    var n := |steps|;
    if n > 0 {
      var before := Run(c, steps[..n - 1]);
      EntryStays(c, steps[..n - 1], nonce);
      match steps[n - 1]
      case StartStep(other, now, fault, image) => StartKeepsEntry(before, nonce, other, now, fault, image);
      case CheckStep(at) => assert nonce in Live(before.expires, at);
      case CommitStep(ok) =>
      case CloseStep =>
    }
  }

  /** Two admissions of one nonce by one cache, with any calls between them under a nondecreasing
      clock, are at least 180 s apart: an earlier second attempt is not admitted. */
  lemma AdmissionsFarApart(c: Cache, nonce: string, first: Time, f: Fault, im: seq<Record>,
                           between: seq<Step>, second: Time, f': Fault, im': seq<Record>)
    requires Inserts(Start(c, nonce, first, f, im).1)
    requires forall i :: 0 <= i < |between| ==> Instant(between[i], second) <= second
    requires second < first + RETENTION
    ensures !Inserts(Start(Run(Start(c, nonce, first, f, im).0, between), nonce, second, f', im').1)
  {
    var c1 := Start(c, nonce, first, f, im).0;
    assert c1.expires[nonce] == first + RETENTION;
    forall i | 0 <= i < |between|
      ensures Instant(between[i], c1.expires[nonce] - 1) < c1.expires[nonce]
    {
      assert Instant(between[i], second) <= second;
    }
    EntryStays(c1, between, nonce);
    assert nonce in Live(Run(c1, between).expires, second);
  }

  // ---------------------------------------------------------------- implementation

  datatype Expiry = Expiry(nonce: string, at: Time)

  lemma EarliestExists(entries: set<Expiry>)
    requires entries != {}
    ensures exists e :: e in entries && forall x :: x in entries ==> e.at <= x.at
  {
    var e :| e in entries;
    var rest := entries - {e};
    if rest != {} {
      EarliestExists(rest);
      var m :| m in rest && forall x :: x in rest ==> m.at <= x.at;
      var least := if e.at <= m.at then e else m;
      assert forall x :: x in entries ==> x == e || x in rest;
      assert forall x :: x in entries ==> least.at <= x.at;
    } else {
      assert entries == {e};
    }
  }

  class ReplayCache {
    var expires: map<string, Time>
    var expiryQueue: multiset<Expiry>
    var disk: Disk
    const persistent: bool
    var open: bool
    var writesSince: nat
    var currentTx: nat
    var syncedTx: nat
    var failed: bool
    var closed: bool

    /** Every entry of the map has its own place in the heap; the heap may hold stale entries too. */
    ghost predicate Valid()
      reads this
    {
      && (forall n :: n in expires ==> Expiry(n, expires[n]) in expiryQueue)
      && syncedTx <= currentTx
    }

    function State(): Cache
      reads this
    {
      Cache(expires, disk, persistent, open, writesSince, currentTx, syncedTx, failed, closed)
    }

    /** OpenReplayCache: the file is scanned line by line. */
    constructor Open(d: Disk, now: Time)
      ensures Valid() && State() == Opened(d, now)
      ensures persistent && open && !failed && !closed && writesSince == currentTx == syncedTx == 0
    {
      disk, persistent, open := Inherited(d), true, true;
      writesSince, currentTx, syncedTx, failed, closed := 0, 0, 0, false, false;
      var log := d.file.View();
      var loaded: map<string, Time>, queued: multiset<Expiry> := map[], multiset{};
      for i := 0 to |log|
        invariant loaded == Loaded(log[..i], now)
        invariant forall n :: n in loaded ==> Expiry(n, loaded[n]) in queued
      {
        assert log[..i + 1][..i] == log[..i];
        var at := log[i].expiry * SECOND;
        if at > now {
          loaded := loaded[log[i].nonce := at];
          queued := queued + multiset{Expiry(log[i].nonce, at)};
        }
      }
      assert log[..|log|] == log;
      expires, expiryQueue := loaded, queued;
    }

    /** NewReplayCache: memory only. */
    constructor InMemory()
      ensures Valid()
      ensures State() == Cache(map[], Disk(File([], []), None, []), false, false, 0, 0, 0, false, false)
    {
      expires, expiryQueue, disk, persistent, open := map[], multiset{}, Disk(File([], []), None, []), false, false;
      writesSince, currentTx, syncedTx, failed, closed := 0, 0, 0, false, false;
    }

    /** The purge loop of Check and Accept: pops the heap while its top has expired, deleting a map
        entry only when the popped expiry is the current one.  The map ends up naively filtered. */
    method Purge(now: Time)
      requires Valid()
      modifies this`expires, this`expiryQueue
      ensures Valid()
      ensures expires == Live(old(expires), now)
    {
      while expiryQueue != multiset{}
        invariant Filtering(old(expires), now)
        invariant Valid()
        decreases |expiryQueue|
      {
        var top := Top();
        if top.at > now { break; }
        PopTop(top);
      }
      assert forall n :: n in expires ==> Expiry(n, expires[n]) in expiryQueue;
    }

    ghost predicate Filtering(before: map<string, Time>, now: Time)
      reads this
    {
      && (forall n :: n in expires ==> n in before && expires[n] == before[n])
      && (forall n :: n in before && n !in expires ==> before[n] <= now)
    }

    /** The heap's least element. */
    method Top() returns (top: Expiry)
      requires expiryQueue != multiset{}
      ensures top in expiryQueue && forall x :: x in expiryQueue ==> top.at <= x.at
    {
      ghost var entries := set x | x in expiryQueue;
      var some :| some in expiryQueue;
      assert some in entries;
      EarliestExists(entries);
      top :| top in expiryQueue && forall x :: x in expiryQueue ==> top.at <= x.at;
    }

    method PopTop(top: Expiry)
      requires Valid() && top in expiryQueue
      modifies this`expires, this`expiryQueue
      ensures Valid() && expiryQueue == old(expiryQueue) - multiset{top}
      ensures expires ==
        if Expiry(top.nonce, top.at) in old(Entries()) then old(expires) - {top.nonce} else old(expires)
    {
      expiryQueue := expiryQueue - multiset{top};
      if top.nonce in expires && expires[top.nonce] == top.at {
        expires := expires - {top.nonce};
      }
    }

    ghost function Entries(): set<Expiry>
      reads this
    {
      set n | n in expires :: Expiry(n, expires[n])
    }

    method Check(nonce: string, now: Time) returns (exists': bool)
      requires Valid()
      modifies this`expires, this`expiryQueue
      ensures Valid()
      ensures expires == Live(old(expires), now)
      ensures exists' <==> nonce in old(expires) && old(expires)[nonce] > now
    {
      Purge(now);
      exists' := nonce in expires;
    }

    /** The records compaction writes to the temporary file, in the order the map yields them. */
    method Snapshot() returns (image: seq<Record>)
      ensures IsImageOf(image, expires)
    {
      image := [];
      var left := expires.Keys;
      while left != {}
        invariant left <= expires.Keys
        invariant forall i :: 0 <= i < |image| ==>
                    image[i].nonce in expires && image[i].nonce !in left
                    && image[i].expiry == Unix(expires[image[i].nonce])
        invariant forall i, j :: 0 <= i < j < |image| ==> image[i].nonce != image[j].nonce
        invariant forall n :: n in expires && n !in left ==> Holds(image, n, Unix(expires[n]))
      {
        var n :| n in left;
        var longer := image + [Record(n, Unix(expires[n]))];
        assert longer[|image|].nonce == n;
        forall m | m in expires && m !in left ensures Holds(longer, m, Unix(expires[m])) {
          HoldsInLonger(image, longer, m, Unix(expires[m]));
        }
        image, left := longer, left - {n};
      }
    }

    method Compact(fault: Fault) returns (ok: bool, image: seq<Record>)
      requires Valid() && open && !failed && disk.replaced.None?
      modifies this
      ensures Valid() && expiryQueue == old(expiryQueue)
      ensures IsImageOf(image, expires)
      ensures State() == CompactionOf(old(State()), fault, image) && ok == !failed
      ensures ok <==> fault.NoFault? || fault.WriteFailed?
      ensures ok ==> disk == Disk(File(image, []), None, []) && writesSince == 0 && open
    {
      image := Snapshot();
      if fault.TempFailed? || fault.RenameFailed? {
        failed := true;
        return false, image;
      }
      disk := Disk(File(image, []), Some(disk.file), disk.leftOver);
      if fault.ReopenFailed? || fault.DirSyncFailed? {
        open := !fault.ReopenFailed?;
        failed := true;
        return false, image;
      }
      disk := disk.(replaced := None, leftOver := []);
      writesSince := 0;
      return true, image;
    }

    /** Accept up to the point where it waits for its record to be synced. */
    method AcceptStart(nonce: string, now: Time, fault: Fault) returns (r: Outcome, image: seq<Record>)
      requires Valid() && (!failed ==> disk.replaced.None?)
      modifies this
      ensures Valid() && (!failed ==> disk.replaced.None?)
      ensures Compacts(old(State()), nonce, now) ==> IsImageOf(image, Live(old(expires), now))
      ensures (State(), r) == Start(old(State()), nonce, now, fault, image)
      ensures Outcomes(old(State()), State(), nonce, now, fault, r)
      ensures r.Waiting? ==> WaitsFor(old(State()), State(), nonce, now, image, r.tx)
    {
      image := [];
      ghost var before := State();
      StartOutcomes(before, nonce, now, fault, image);
      if closed || failed { return Refused, image; }
      if persistent && !open {
        failed := true;
        return Refused, image;
      }
      Purge(now);
      if nonce in expires { return Duplicate, image; }
      if |expires| >= CAPACITY { return Full, image; }
      r, image := InsertNew(nonce, now, fault);
      StartOutcomes(before, nonce, now, fault, image);
    }

    method InsertNew(nonce: string, now: Time, fault: Fault) returns (r: Outcome, image: seq<Record>)
      requires Valid() && !failed && disk.replaced.None?
      modifies this
      ensures Valid() && (!failed ==> disk.replaced.None?)
      ensures old(open && writesSince >= COMPACT_AFTER) ==> IsImageOf(image, old(expires))
      ensures (State(), r) == Insert(old(State()), nonce, now, fault, image)
    {
      image := [];
      if !open {
        Remember(nonce, now);
        return Granted, image;
      }
      if writesSince >= COMPACT_AFTER {
        var ok;
        ok, image := Compact(fault);
        if !ok { return Refused, image; }
      }
      r := Log(nonce, now, fault);
    }

    method Log(nonce: string, now: Time, fault: Fault) returns (r: Outcome)
      requires Valid() && !failed
      modifies this
      ensures Valid() && disk.replaced == old(disk.replaced)
      ensures (State(), r) == Logged(old(State()), nonce, now, fault)
    {
      if fault.WriteFailed? {
        if fault.landed { WriteRecord(nonce, now); }
        failed := true;
        return Refused;
      }
      WriteRecord(nonce, now);
      writesSince, currentTx := writesSince + 1, currentTx + 1;
      Remember(nonce, now);
      r := if persistent then Waiting(currentTx) else Granted;
    }

    method Remember(nonce: string, now: Time)
      requires Valid()
      modifies this`expires, this`expiryQueue
      ensures Valid() && expires == old(expires)[nonce := now + RETENTION]
    {
      expires := expires[nonce := now + RETENTION];
      expiryQueue := expiryQueue + multiset{Expiry(nonce, now + RETENTION)};
    }

    method WriteRecord(nonce: string, now: Time)
      modifies this`disk
      ensures disk == WithRecord(old(disk), nonce, now)
    {
      disk := disk.(file := disk.file.(unsynced := disk.file.unsynced + [Record(nonce, Unix(now + RETENTION))]));
    }

    /** The wait condition of Accept; the caller sleeps again on Unfinished. */
    method AcceptFinish(tx: nat) returns (a: Answer)
      requires tx <= currentTx
      ensures a == Finish(State(), tx)
      ensures a == Answered(true) <==> !failed && tx <= syncedTx
      ensures a == Answered(false) <==> failed
    {
      if syncedTx < tx && !failed { return Unfinished; }
      return Answered(!failed);
    }

    /** groupCommitLoop, one iteration; `ok` is the result of the file sync. */
    method Commit(ok: bool)
      requires Valid()
      modifies this
      ensures Valid() && expiryQueue == old(expiryQueue)
      ensures State() == Committed(old(State()), ok)
      ensures old(open && currentTx > syncedTx) && ok ==>
        && syncedTx == old(currentTx) && failed == old(failed)
        && (!failed ==> disk.file == File(old(disk.file.View()), []))
      ensures old(open && currentTx > syncedTx) && !ok ==> failed
    {
      if open && currentTx > syncedTx {
        if !ok {
          failed := true;
        } else {
          syncedTx := currentTx;
          if !failed { disk := disk.(file := File(disk.file.View(), [])); }
        }
      }
    }
  }
}
