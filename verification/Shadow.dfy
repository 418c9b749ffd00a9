/** A crash may bring back a file that does not have everything the system answered for.  A shadow of the
    system forgets, at each such crash, what the file does not have: it satisfies the invariant of
    `AtMostOnce` and takes the same steps, so the invariant reaches every run. */
module Shadow {
  import opened Clock
  import opened NonceCache
  import opened DurableLog
  import opened Admission
  import opened AtMostOnce

  // ---------------------------------------------------------------- what the crash has kept

  /** The reloaded memory, as grants nobody uses, and the grants that are in the file. */
  ghost function Kept(granted: set<Grant>, image: seq<Record>, memory: map<string, Time>): set<Grant> {
    (set n | n in memory :: Grant(n, memory[n] - RETENTION, Foreign))
    + (set g | g in granted && Holds(image, g.nonce, Deadline(g)))
  }

  ghost predicate Backed(kept: set<Grant>, d: Datagram) {
    exists g :: g in kept && g.owner.ByWindow? && g.nonce == NameOf(d)
  }

  /** The acceptances whose bucket is backed by a kept grant. */
  ghost function Pick(accepted: seq<Acceptance>, kept: set<Grant>): seq<Acceptance> {
    if accepted == [] then []
    else
      var front, last := Pick(accepted[..|accepted| - 1], kept), accepted[|accepted| - 1];
      if Backed(kept, last.datagram) then front + [last] else front
  }

  lemma {:induction false} PickMembers(accepted: seq<Acceptance>, kept: set<Grant>, i: nat)
    requires i < |Pick(accepted, kept)|
    ensures exists j ::
      0 <= j < |accepted| && accepted[j] == Pick(accepted, kept)[i] && Backed(kept, accepted[j].datagram)
  {
    var n := |accepted| - 1;
    var front := accepted[..n];
    if i < |Pick(front, kept)| {
      PickMembers(front, kept, i);
      var j :| 0 <= j < |front| && front[j] == Pick(front, kept)[i] && Backed(kept, front[j].datagram);
      assert accepted[j] == front[j];
    } else {
      assert accepted[n] == Pick(accepted, kept)[i];
    }
  }

  lemma {:induction false} PickHas(accepted: seq<Acceptance>, kept: set<Grant>, j: nat)
    requires j < |accepted| && Backed(kept, accepted[j].datagram)
    ensures accepted[j] in Pick(accepted, kept)
  {
    var front := accepted[..|accepted| - 1];
    if j < |front| {
      assert front[j] == accepted[j];
      PickHas(front, kept, j);
    }
  }

  /** No two acceptances are of the same datagram. */
  ghost predicate Once(accepted: seq<Acceptance>) {
    forall i, j :: 0 <= i < j < |accepted| ==> accepted[i].datagram != accepted[j].datagram
  }

  lemma {:induction false} PickOnce(accepted: seq<Acceptance>, kept: set<Grant>)
    requires Once(accepted)
    ensures Once(Pick(accepted, kept))
  {
    if accepted != [] {
      var n := |accepted| - 1;
      var front := accepted[..n];
      assert forall i :: 0 <= i < n ==> front[i] == accepted[i];
      PickOnce(front, kept);
      var picked := Pick(front, kept);
      forall i | 0 <= i < |picked| ensures picked[i].datagram != accepted[n].datagram {
        PickMembers(front, kept, i);
        var j :| 0 <= j < |front| && front[j] == picked[i];
        assert front[j] == accepted[j];
      }
    }
  }

  /** The world after a crash that left `image`, and the same without what the crash has lost. */
  ghost function Forgetful(w: World): World {
    var image := w.cache.disk.file.durable;
    var kept := Kept(w.granted, image, w.cache.expires);
    w.(granted := kept, accepted := Pick(w.accepted, kept))
  }

  lemma ForgetfulGrants(w: World, image: seq<Record>, reload: Time, g: Grant)
    requires w.cache == Recovered(image, reload) && g in Forgetful(w).granted
    ensures OnDisk(w.cache, g.nonce, Deadline(g))
  {
    assert File(image, []).View() == image;
    if g.nonce in w.cache.expires && g.at == w.cache.expires[g.nonce] - RETENTION {
      LoadOnlyFromLog(image, reload, g.nonce);
      var i :| 0 <= i < |image| && image[i].nonce == g.nonce && image[i].expiry * SECOND == w.cache.expires[g.nonce];
      assert Deadline(g) == image[i].expiry;
    }
  }

  lemma ForgetfulAcceptances(before: World, image: seq<Record>, reload: Time)
    requires OneOwner(before) && AcceptancesGranted(before)
    ensures AcceptancesGranted(Forgetful(Restarted(before, Recovered(image, reload))))
  {
    var w := Restarted(before, Recovered(image, reload));
    var p := Forgetful(w);
    forall i | 0 <= i < |p.accepted|
      ensures HasGrant(p, p.accepted[i].id, NameOf(p.accepted[i].datagram)) && p.accepted[i].id < p.nextId
    {
      PickMembers(w.accepted, p.granted, i);
      var j :| 0 <= j < |w.accepted| && w.accepted[j] == p.accepted[i] && Backed(p.granted, w.accepted[j].datagram);
      var g :| g in p.granted && g.owner.ByWindow? && g.nonce == NameOf(w.accepted[j].datagram);
      assert HasGrant(before, g.owner.id, g.nonce);
      SameBucketSameWindow(before, g.owner.id, w.accepted[j].id, g.nonce);
    }
  }

  lemma ForgetfulOwners(before: World, image: seq<Record>, reload: Time)
    requires OneOwner(before)
    ensures OneOwner(Forgetful(Restarted(before, Recovered(image, reload))))
  {
    var p := Forgetful(Restarted(before, Recovered(image, reload)));
    assert forall g :: Promised(p, g) && g.owner.ByWindow? ==> Promised(before, g);
  }

  /** The crash's survivor, forgetting what was lost, satisfies the invariant. */
  lemma ForgetfulInv(before: World, image: seq<Record>, reload: Time)
    requires Inv(before) && LogOk(Recovered(image, reload), before.clock)
    ensures Inv(Forgetful(Restarted(before, Recovered(image, reload))))
  {
    var w := Restarted(before, Recovered(image, reload));
    var p := Forgetful(w);
    forall g | g in p.granted ensures OnDisk(p.cache, g.nonce, Deadline(g)) {
      ForgetfulGrants(w, image, reload, g);
    }
    ForgetfulOwners(before, image, reload);
    ForgetfulAcceptances(before, image, reload);
    PickOnce(w.accepted, p.granted);
  }

  // ---------------------------------------------------------------- both worlds take the same steps

  /** Equal but for what they remember having granted and accepted. */
  ghost predicate Alike(w: World, p: World) { p == w.(granted := p.granted, accepted := p.accepted) }

  /** What one event adds to the acceptances. */
  ghost function Gained(w: World, e: Event): seq<Acceptance>
    requires Enabled(w, e)
  {
    if |w.accepted| <= |Apply(w, e).accepted| then Apply(w, e).accepted[|w.accepted|..] else []
  }

  lemma AlikeStep(w: World, p: World, e: Event)
    requires Alike(w, p) && Enabled(w, e)
    ensures Enabled(p, e) && (TakesLeftOver(p, e) <==> TakesLeftOver(w, e))
    ensures Alike(Apply(w, e), Apply(p, e))
    ensures Apply(p, e).accepted == p.accepted + Gained(p, e) && Gained(w, e) == Gained(p, e)
    ensures Apply(w, e).accepted == w.accepted + Gained(w, e)
  {
  }

  lemma SurvivorOk(w: World, e: Event)
    requires Inv(w) && (e.Crash? || e.CrashInCompaction?) && Enabled(w, e)
    ensures LogOk(Apply(w, e).cache, w.clock)
  {
    match e
    case Crash(survivor, reload) => CrashKeeps(w.cache.disk, survivor, w.clock, reload);
    case CrashInCompaction(purged, written, left, reopen) =>
      MidCompactionKeeps(w, purged, written);
      CrashKeeps(MidCompaction(w.cache, purged, written), left, w.clock, reopen);
  }

  /** One step of the shadow. */
  ghost function Shadowed(p: World, e: Event): World
    requires Enabled(p, e)
  {
    if TakesLeftOver(p, e) then Forgetful(Apply(p, e)) else Apply(p, e)
  }

  lemma ForgetfulStep(p: World, e: Event)
    requires Inv(p) && Enabled(p, e) && TakesLeftOver(p, e)
    ensures Inv(Forgetful(Apply(p, e)))
  {
    SurvivorOk(p, e);
    if e.Crash? {
      ForgetfulInv(p, e.survivor, e.reload);
    } else {
      ForgetfulInv(p, e.left, e.reopen);
    }
  }

  /** Whatever happens, the shadow keeps the invariant and stays alike. */
  lemma ShadowStep(w: World, p: World, e: Event)
    requires Alike(w, p) && Inv(p) && Enabled(w, e)
    ensures Enabled(p, e) && Alike(Apply(w, e), Shadowed(p, e)) && Inv(Shadowed(p, e))
  {
    AlikeStep(w, p, e);
    if TakesLeftOver(p, e) {
      ForgetfulStep(p, e);
    } else {
      EventKeeps(p, e);
    }
  }
}
