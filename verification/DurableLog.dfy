/** What every operation on the cache keeps of the log, for a clock that never goes back: live records
    are in memory, what was synced stays on whichever file a crash may leave, and compaction,
    failures and reload lose nothing that has not expired. */
module DurableLog {
  import opened Clock
  import opened NonceCache

  /** Every unexpired record of the log is in the map, with at least its expiry. */
  ghost predicate Covered(log: seq<Record>, expires: map<string, Time>, clock: Time) {
    forall i :: 0 <= i < |log| && log[i].expiry * SECOND > clock ==>
      log[i].nonce in expires && expires[log[i].nonce] >= log[i].expiry * SECOND
  }

  /** A nonce is written again only after its earlier records have expired. */
  ghost predicate Distinct(log: seq<Record>, clock: Time) {
    forall i, j :: 0 <= i < j < |log| && log[i].nonce == log[j].nonce ==> log[i].expiry * SECOND <= clock
  }

  ghost predicate LeftOverOk(files: seq<File>, clock: Time) {
    forall i :: 0 <= i < |files| ==> Distinct(files[i].View(), clock)
  }

  ghost predicate LogOk(c: Cache, clock: Time) {
    && c.persistent
    && c.syncedTx <= c.currentTx
    && Distinct(c.disk.file.View(), clock)
    && (c.disk.replaced.Some? ==> Distinct(c.disk.replaced.value.View(), clock))
    && LeftOverOk(c.disk.leftOver, clock)
    && (!c.failed ==> c.open && c.disk.replaced.None? && Covered(c.disk.file.View(), c.expires, clock))
  }

  ghost predicate InLog(c: Cache, nonce: string, e: int) { Holds(c.disk.file.View(), nonce, e) }

  /** Synced, in the current file and in the one this process has replaced. */
  ghost predicate OnDisk(c: Cache, nonce: string, e: int) {
    && Holds(c.disk.file.durable, nonce, e)
    && (c.disk.replaced.Some? ==> Holds(c.disk.replaced.value.durable, nonce, e))
  }

  /** From c to c', nothing unexpired is lost. */
  ghost predicate Keeps(c: Cache, c': Cache, clock: Time) {
    && (forall n, e {:trigger OnDisk(c', n, e)} :: e * SECOND > clock && OnDisk(c, n, e) ==> OnDisk(c', n, e))
    && (!c'.failed ==> !c.failed)
    && (!c'.failed ==>
          forall n, e {:trigger InLog(c', n, e)} :: e * SECOND > clock && InLog(c, n, e) ==> InLog(c', n, e))
  }

  lemma DistinctPrefix(log: seq<Record>, image: seq<Record>, clock: Time)
    requires Distinct(log, clock) && image <= log
    ensures Distinct(image, clock)
  {
    forall i, j | 0 <= i < j < |image| && image[i].nonce == image[j].nonce
      ensures image[i].expiry * SECOND <= clock
    {
      assert image[i] == log[i] && image[j] == log[j];
    }
  }

  /** An unexpired logged nonce is in memory, and stays there through a purge by any past instant. */
  lemma LiveInMemory(c: Cache, clock: Time, now: Time, nonce: string, e: int)
    requires LogOk(c, clock) && !c.failed && now <= clock
    requires InLog(c, nonce, e) && e * SECOND > clock
    ensures nonce in Live(c.expires, now) && Unix(Live(c.expires, now)[nonce]) >= e
  {
    var log := c.disk.file.View();
    var i :| 0 <= i < |log| && log[i].nonce == nonce && log[i].expiry >= e;
    assert log[i].expiry * SECOND > clock;
  }

  // ---------------------------------------------------------------- the log operations

  lemma TimePasses(c: Cache, clock: Time, later: Time)
    requires LogOk(c, clock) && clock <= later
    ensures LogOk(c, later)
  {
  }

  lemma PurgeKeeps(c: Cache, clock: Time, now: Time)
    requires LogOk(c, clock) && now <= clock
    ensures LogOk(c.(expires := Live(c.expires, now)), clock)
    ensures Keeps(c, c.(expires := Live(c.expires, now)), clock)
  {
  }

  /** The rename leaves two candidate files, and both hold what was synced and has not expired. */
  lemma RenameKeeps(c: Cache, clock: Time, image: seq<Record>)
    requires LogOk(c, clock) && !c.failed
    requires IsImageOf(image, c.expires)
    ensures var c' := Renamed(c, image);
            && Distinct(c'.disk.file.View(), clock)
            && Distinct(c'.disk.replaced.value.View(), clock)
            && Covered(c'.disk.file.View(), c.expires, clock)
            && Keeps(c, c', clock)
  {
    var c' := Renamed(c, image);
    assert c'.disk.file.View() == image;
    forall n, e | e * SECOND > clock && InLog(c, n, e)
      ensures Holds(image, n, e)
    {
      LiveInMemory(c, clock, clock, n, e);
      var i :| 0 <= i < |image| && image[i].nonce == n && image[i].expiry >= Unix(c.expires[n]);
      assert image[i].expiry >= e;
    }
    forall n, e | e * SECOND > clock && OnDisk(c, n, e)
      ensures OnDisk(c', n, e)
    {
      HoldsInLonger(c.disk.file.durable, c.disk.file.View(), n, e);
      assert InLog(c, n, e);
    }
  }

  lemma CompactionKeeps(c: Cache, clock: Time, fault: Fault, image: seq<Record>)
    requires LogOk(c, clock) && !c.failed
    requires IsImageOf(image, c.expires)
    ensures LogOk(CompactionOf(c, fault, image), clock)
    ensures Keeps(c, CompactionOf(c, fault, image), clock)
  {
    RenameKeeps(c, clock, image);
    var renamed, c' := Renamed(c, image), CompactionOf(c, fault, image);
    forall n, e | e * SECOND > clock && OnDisk(c, n, e) ensures OnDisk(c', n, e) {
      assert OnDisk(renamed, n, e);
    }
    if !c'.failed {
      forall n, e | e * SECOND > clock && InLog(c, n, e) ensures InLog(c', n, e) {
        assert InLog(renamed, n, e);
      }
    }
  }

  lemma WriteKeeps(c: Cache, clock: Time, nonce: string, now: Time)
    requires LogOk(c, clock) && !c.failed && nonce !in c.expires
    ensures var d := WithRecord(c.disk, nonce, now);
            && Distinct(d.file.View(), clock)
            && c.disk.file.View() <= d.file.View()
            && Holds(d.file.View(), nonce, Unix(now + RETENTION))
  {
    var log := c.disk.file.View();
    var d := WithRecord(c.disk, nonce, now);
    var longer := log + [Record(nonce, Unix(now + RETENTION))];
    assert d.file.View() == longer;
    assert longer[|log|].nonce == nonce;
    forall i, j | 0 <= i < j < |longer| && longer[i].nonce == longer[j].nonce
      ensures longer[i].expiry * SECOND <= clock
    {
      assert longer[i] == log[i];
      if j < |log| { assert longer[j] == log[j]; }
    }
  }

  lemma AppendKeeps(c: Cache, clock: Time, nonce: string, now: Time)
    requires LogOk(c, clock) && !c.failed && nonce !in c.expires
    ensures LogOk(Appended(c, nonce, now), clock)
    ensures Keeps(c, Appended(c, nonce, now), clock)
    ensures InLog(Appended(c, nonce, now), nonce, Unix(now + RETENTION))
  {
    WriteKeeps(c, clock, nonce, now);
    var c' := Appended(c, nonce, now);
    var log, longer := c.disk.file.View(), c'.disk.file.View();
    assert longer == log + [Record(nonce, Unix(now + RETENTION))];
    forall i | 0 <= i < |longer| && longer[i].expiry * SECOND > clock
      ensures longer[i].nonce in c'.expires && c'.expires[longer[i].nonce] >= longer[i].expiry * SECOND
    {
      if i < |log| { assert longer[i] == log[i]; }
    }
    forall n, e | InLog(c, n, e) ensures InLog(c', n, e) { HoldsInLonger(log, longer, n, e); }
  }

  lemma FailedWriteKeeps(c: Cache, clock: Time, nonce: string, now: Time)
    requires LogOk(c, clock) && !c.failed && nonce !in c.expires
    ensures LogOk(Fail(c.(disk := WithRecord(c.disk, nonce, now))), clock)
    ensures Keeps(c, Fail(c.(disk := WithRecord(c.disk, nonce, now))), clock)
  {
    WriteKeeps(c, clock, nonce, now);
  }

  lemma KeepsTransitive(a: Cache, b: Cache, c: Cache, clock: Time)
    requires Keeps(a, b, clock) && Keeps(b, c, clock)
    ensures Keeps(a, c, clock)
  {
    forall n, e | e * SECOND > clock && OnDisk(a, n, e) ensures OnDisk(c, n, e) { assert OnDisk(b, n, e); }
    if !c.failed {
      forall n, e | e * SECOND > clock && InLog(a, n, e) ensures InLog(c, n, e) { assert InLog(b, n, e); }
    }
  }

  lemma InsertKeeps(c: Cache, clock: Time, nonce: string, now: Time, fault: Fault, image: seq<Record>)
    requires LogOk(c, clock) && !c.failed && nonce !in c.expires
    requires c.writesSince >= COMPACT_AFTER ==> IsImageOf(image, c.expires)
    ensures var (c', r) := Insert(c, nonce, now, fault, image);
            && LogOk(c', clock) && Keeps(c, c', clock)
            && (r.Waiting? ==> !c'.failed && r.tx == c'.currentTx == c.currentTx + 1 && c'.syncedTx == c.syncedTx
                               && InLog(c', nonce, Unix(now + RETENTION)))
            && (!r.Waiting? ==> r.Refused? && c'.failed)
  {
    var b := if c.writesSince >= COMPACT_AFTER then CompactionOf(c, fault, image) else c;
    if c.writesSince >= COMPACT_AFTER { CompactionKeeps(c, clock, fault, image); }
    if !b.failed {
      if fault.WriteFailed? {
        FailedWriteKeeps(b, clock, nonce, now);
        KeepsTransitive(c, b, Insert(c, nonce, now, fault, image).0, clock);
      } else {
        AppendKeeps(b, clock, nonce, now);
        KeepsTransitive(c, b, Appended(b, nonce, now), clock);
      }
    }
  }

  /** Accept's first half, on every path and every fault. An admitted nonce is logged, and it had no
      unexpired record before. */
  lemma StartKeeps(c: Cache, clock: Time, nonce: string, now: Time, fault: Fault, image: seq<Record>)
    requires LogOk(c, clock) && now <= clock
    requires Compacts(c, nonce, now) ==> IsImageOf(image, Live(c.expires, now))
    ensures var (c', r) := Start(c, nonce, now, fault, image);
            && LogOk(c', clock) && Keeps(c, c', clock) && !r.Granted?
            && c.currentTx <= c'.currentTx && c'.syncedTx == c.syncedTx
            && (r.Waiting? ==> !c.failed && !c'.failed && r.tx == c'.currentTx == c.currentTx + 1
                               && InLog(c', nonce, Unix(now + RETENTION))
                               && forall e :: e * SECOND > clock ==> !InLog(c, nonce, e))
  {
    if !c.closed && !c.failed {
      var kept := c.(expires := Live(c.expires, now));
      PurgeKeeps(c, clock, now);
      if nonce !in kept.expires && |kept.expires| < CAPACITY {
        InsertKeeps(kept, clock, nonce, now, fault, image);
        KeepsTransitive(c, kept, Insert(kept, nonce, now, fault, image).0, clock);
        forall e | e * SECOND > clock ensures !InLog(c, nonce, e) {
          if InLog(c, nonce, e) { LiveInMemory(c, clock, now, nonce, e); }
        }
      }
    }
  }

  lemma CommitKeeps(c: Cache, clock: Time, ok: bool)
    requires LogOk(c, clock)
    ensures var c' := Committed(c, ok);
            && LogOk(c', clock) && Keeps(c, c', clock) && c'.currentTx == c.currentTx
            && (!c'.failed && c'.syncedTx != c.syncedTx ==>
                  c'.syncedTx == c'.currentTx && forall n, e :: InLog(c, n, e) ==> OnDisk(c', n, e))
  {
    var c' := Committed(c, ok);
    assert c'.disk.file.View() == c.disk.file.View();
    assert c.disk.file.View() + [] == c.disk.file.View();
    forall n, e | OnDisk(c, n, e) ensures OnDisk(c', n, e) {
      HoldsInLonger(c.disk.file.durable, c.disk.file.View(), n, e);
    }
  }

  // ---------------------------------------------------------------- restart

  /** Reload establishes the invariant from a log that kept it. */
  lemma ReloadOk(d: Disk, clock: Time, now: Time)
    requires Distinct(d.file.View(), clock) && LeftOverOk(d.leftOver, clock) && now <= clock
    requires d.replaced.Some? ==> Distinct(d.replaced.value.View(), clock)
    ensures LogOk(Opened(d, now), clock)
  {
    var log := d.file.View();
    forall i | 0 <= i < |log| && log[i].expiry * SECOND > clock
      ensures log[i].nonce in Loaded(log, now) && Loaded(log, now)[log[i].nonce] >= log[i].expiry * SECOND
    {
      LoadExact(log, now, i);
    }
  }

  /** So it does from any file a crash may leave, left over or not. */
  lemma CrashKeeps(d: Disk, image: seq<Record>, clock: Time, now: Time)
    requires Survives(d, image) && now <= clock
    requires Distinct(d.file.View(), clock) && LeftOverOk(d.leftOver, clock)
    requires d.replaced.Some? ==> Distinct(d.replaced.value.View(), clock)
    ensures LogOk(Recovered(image, now), clock)
  {
    if Current(d, image) {
      ImageOk(if SurvivesIn(d.file, image) then d.file else d.replaced.value, image, clock, now);
    } else {
      var i :| 0 <= i < |d.leftOver| && SurvivesIn(d.leftOver[i], image);
      ImageOk(d.leftOver[i], image, clock, now);
    }
  }

  lemma ImageOk(f: File, image: seq<Record>, clock: Time, now: Time)
    requires SurvivesIn(f, image) && Distinct(f.View(), clock) && now <= clock
    ensures LogOk(Recovered(image, now), clock)
  {
    DistinctPrefix(f.View(), image, clock);
    assert File(image, []).View() == image;
    ReloadOk(Disk(File(image, []), None, []), clock, now);
  }
}
