/** No answer is lost: whatever Accept answered true for is found by every reload until its retention
    ends, over every run, unless a crash took a left-over file that does not have it. */
module Grants {
  import opened Clock
  import opened NonceCache
  import opened DurableLog
  import opened Admission
  import opened AtMostOnce
  import opened Shadow

  /** Of `s` and what one event answers, what is left: a crash that takes a left-over file leaves what the
      file has. */
  ghost function Answered(w: World, e: Event, s: set<Grant>): set<Grant>
    requires Enabled(w, e)
  {
    if TakesLeftOver(w, e) then set g | g in s && Holds(Apply(w, e).cache.disk.file.durable, g.nonce, Deadline(g))
    else if e.Wake? && !w.cache.failed then s + {e.call.grant}
    else s
  }

  /** The grants answered in the run that every later crash that took a left-over file has left. */
  ghost function Standing(w: World, events: seq<Event>, s: set<Grant>): set<Grant>
    decreases |events|
  {
    if events == [] || !Enabled(w, events[0]) then s
    else Standing(Apply(w, events[0]), events[1..], Answered(w, events[0], s))
  }

  lemma AnsweredInShadow(w: World, p: World, e: Event, s: set<Grant>)
    requires Alike(w, p) && Enabled(w, e) && Enabled(p, e) && s <= p.granted
    ensures Answered(w, e, s) <= Shadowed(p, e).granted
  {
  }

  lemma {:induction false} RunStands(w: World, p: World, s: set<Grant>, events: seq<Event>, w': World)
      returns (p': World)
    requires Alike(w, p) && Inv(p) && s <= p.granted && Reaches(w, events, w')
    ensures Alike(w', p') && Inv(p') && Standing(w, events, s) <= p'.granted
    decreases |events|
  {
    if events == [] {
      p' := p;
    } else {
      ShadowStep(w, p, events[0]);
      AnsweredInShadow(w, p, events[0], s);
      p' := RunStands(Apply(w, events[0]), Shadowed(p, events[0]), Answered(w, events[0], s), events[1..], w');
    }
  }

  /** The grants whose answer stands are on the disk of every reachable state. */
  lemma StandingOnDisk(w: World, events: seq<Event>, w': World, g: Grant) returns (p: World)
    requires Initial(w) && Reaches(w, events, w') && g in Standing(w, events, {})
    ensures Alike(w', p) && Inv(p) && g in p.granted
  {
    InitialInv(w);
    p := RunStands(w, w, {}, events, w');
  }

  /** In a run without such a crash, every answer stands. */
  lemma {:induction false} CleanStanding(w: World, events: seq<Event>, w': World)
    requires Reaches(w, events, w') && Clean(w, events)
    ensures Standing(w, events, w.granted) == w'.granted
    decreases |events|
  {
    if events != [] {
      CleanStanding(Apply(w, events[0]), events[1..], w');
    }
  }

  /** Whatever Accept answered true for is found by a reload after a crash at any point, until the
      second its retention ends. */
  lemma GrantSurvivesCrash(w: World, events: seq<Event>, w': World, g: Grant, survivor: seq<Record>, reload: Time)
    requires Initial(w) && Reaches(w, events, w') && g in Standing(w, events, {})
    requires w'.clock < Deadline(g) * SECOND && reload < Deadline(g) * SECOND
    requires Current(w'.cache.disk, survivor)
    ensures g.nonce in Loaded(survivor, reload)
  {
    var p := StandingOnDisk(w, events, w', g);
    SurvivorKeeps(p.cache.disk, survivor, g.nonce, Deadline(g));
    LoadKeeps(survivor, reload, g.nonce, Deadline(g));
  }

  lemma GrantSurvivesCrashInCompaction(w: World, events: seq<Event>, w': World, g: Grant,
                                       purged: Time, written: seq<Record>, left: seq<Record>, reopen: Time)
    requires Initial(w) && Reaches(w, events, w') && g in Standing(w, events, {})
    requires w'.clock < Deadline(g) * SECOND && reopen < Deadline(g) * SECOND
    requires Enabled(w', CrashInCompaction(purged, written, left, reopen))
    requires !TakesLeftOver(w', CrashInCompaction(purged, written, left, reopen))
    ensures g.nonce in Loaded(left, reopen)
  {
    var p := StandingOnDisk(w, events, w', g);
    MidCompactionKeeps(p, purged, written);
    var d := MidCompaction(p.cache, purged, written);
    assert OnDisk(p.cache.(disk := d), g.nonce, Deadline(g));
    SurvivorKeeps(d, left, g.nonce, Deadline(g));
    LoadKeeps(left, reopen, g.nonce, Deadline(g));
  }

  lemma {:induction false} LoadedGrows(log: seq<Record>, more: seq<Record>, now: Time, nonce: string)
    requires nonce in Loaded(log, now)
    ensures nonce in Loaded(log + more, now)
  {
    if more == [] {
      assert log + more == log;
    } else {
      var n := |more| - 1;
      LoadedGrows(log, more[..n], now, nonce);
      assert (log + more)[..|log + more| - 1] == log + more[..n];
    }
  }

  lemma DurableSurvives(d: Disk, i: nat)
    requires i < |d.leftOver|
    ensures Survives(d, d.leftOver[i].durable)
  {
    assert d.leftOver[i].durable == d.leftOver[i].durable + d.leftOver[i].unsynced[..0];
    assert SurvivesIn(d.leftOver[i], d.leftOver[i].durable);
  }

  lemma SurvivorLoads(f: File, survivor: seq<Record>, reload: Time, nonce: string)
    requires SurvivesIn(f, survivor) && nonce in Loaded(f.durable, reload)
    ensures nonce in Loaded(survivor, reload)
  {
    var k: nat :| k <= |f.unsynced| && survivor == f.durable + f.unsynced[..k];
    LoadedGrows(f.durable, f.unsynced[..k], reload, nonce);
  }

  /** The nonce is found in whatever the files left over from earlier processes may leave. */
  ghost predicate InLeftOvers(d: Disk, reload: Time, nonce: string) {
    forall i :: 0 <= i < |d.leftOver| ==> nonce in Loaded(d.leftOver[i].durable, reload)
  }

  /** Counting the files left over from earlier processes too: a grant is found after every crash if and
      only if the synced part of every left-over file has its nonce. */
  lemma GrantSurvivesEveryCrashIff(w: World, events: seq<Event>, w': World, g: Grant, reload: Time)
    requires Initial(w) && Reaches(w, events, w') && g in Standing(w, events, {})
    requires w'.clock < Deadline(g) * SECOND && reload < Deadline(g) * SECOND
    ensures (forall survivor :: Survives(w'.cache.disk, survivor) ==> g.nonce in Loaded(survivor, reload))
      <==> InLeftOvers(w'.cache.disk, reload, g.nonce)
  {
    var d := w'.cache.disk;
    forall i | 0 <= i < |d.leftOver| ensures Survives(d, d.leftOver[i].durable) {
      DurableSurvives(d, i);
    }
    if InLeftOvers(d, reload, g.nonce) {
      forall survivor | Survives(d, survivor) ensures g.nonce in Loaded(survivor, reload) {
        GrantSurvivesHere(w, events, w', g, survivor, reload);
      }
    }
  }

  lemma GrantSurvivesHere(w: World, events: seq<Event>, w': World, g: Grant, survivor: seq<Record>, reload: Time)
    requires Initial(w) && Reaches(w, events, w') && g in Standing(w, events, {})
    requires w'.clock < Deadline(g) * SECOND && reload < Deadline(g) * SECOND
    requires Survives(w'.cache.disk, survivor) && InLeftOvers(w'.cache.disk, reload, g.nonce)
    ensures g.nonce in Loaded(survivor, reload)
  {
    var d := w'.cache.disk;
    if Current(d, survivor) {
      GrantSurvivesCrash(w, events, w', g, survivor, reload);
    } else {
      var i :| 0 <= i < |d.leftOver| && SurvivesIn(d.leftOver[i], survivor);
      SurvivorLoads(d.leftOver[i], survivor, reload, g.nonce);
    }
  }

  /** Exits never lose a grant, not even over a rename whose directory entry was never synced. */
  lemma GrantSurvivesExit(w: World, events: seq<Event>, w': World, g: Grant, restart: Time)
    requires Initial(w) && Reaches(w, events, w') && g in Standing(w, events, {})
    requires w'.clock < Deadline(g) * SECOND && restart < Deadline(g) * SECOND
    ensures g.nonce in Opened(w'.cache.disk, restart).expires
  {
    var p := StandingOnDisk(w, events, w', g);
    OnDiskIsLogged(p.cache, g.nonce, Deadline(g));
    LoadKeeps(p.cache.disk.file.View(), restart, g.nonce, Deadline(g));
  }
}
