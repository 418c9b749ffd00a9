/** What every interleaving of route tables, relays and lease returns keeps. */
module UdpRoutesProof {
  import opened UdpBudget
  import opened UdpRoutes
  import opened Sets

  // ---------------------------------------------------------------- the invariant

  /** A key is in at most one of the three maps, and together they stay within the limit. */
  ghost predicate TableInv(tb: Table) {
    && tb.entries.Keys !! tb.icmp.Keys
    && tb.entries.Keys !! tb.opening.Keys
    && tb.icmp.Keys !! tb.opening.Keys
    && Size(tb) <= Limit(tb)
    && (tb.closed ==> tb.entries == map[] && tb.icmp == map[])
  }

  ghost predicate Indexed(tb: Table, t: nat, home: map<Lease, Place>) {
    forall key, kind, l | Holds(tb, key, kind, l) :: l in home && home[l] == In(t, key, kind)
  }

  /** A lease at a place is live, and a table that has it has it there. */
  ghost predicate Placed(tables: seq<Table>, home: map<Lease, Place>, live: map<Lease, Identity>, l: Lease) {
    l in home ==>
      && (home[l] != Gone ==> l in live)
      && (home[l].In? ==> home[l].table < |tables| && Holds(tables[home[l].table], home[l].key, home[l].kind, l))
  }

  /** A lease that nobody holds is on its way back or already returned. */
  ghost predicate Owed(w: World) {
    && w.live.Keys <= w.home.Keys
    && (forall l | l in w.live && w.home[l] == Gone :: l in w.closing)
    && (forall l | l in w.closing :: l in w.home && w.home[l] == Gone)
  }

  ghost predicate Inv(w: World) {
    && Counts(w.budget, w.live) && Within(w.budget)
    && (forall t: nat | t < |w.tables| :: TableInv(w.tables[t]))
    && (forall t: nat | t < |w.tables| :: Indexed(w.tables[t], t, w.home))
    && (forall l: Lease :: Placed(w.tables, w.home, w.live, l))
    && Owed(w)
  }

  // ---------------------------------------------------------------- one table

  /** The effect says where every lease of the table is afterwards. */
  ghost predicate Moves(tb: Table, x: Effect) {
    forall key, kind, l ::
      Holds(x.table, key, kind, l) <==> x.put == Put(l, key, kind) || (Holds(tb, key, kind, l) && Stays(x, l))
  }

  predicate Stays(x: Effect, l: Lease) { l !in x.gone && !(x.put.Put? && x.put.lease == l) }

  lemma SmallerMap<V>(m: map<Key, V>, key: Key)
    requires key in m
    ensures |m - {key}| == |m| - 1
  {
    assert (m - {key}).Keys == m.Keys - {key};
  }

  lemma LargerMap<V>(m: map<Key, V>, key: Key, v: V)
    ensures |m[key := v]| == if key in m then |m| else |m| + 1
  {
    assert m[key := v].Keys == m.Keys + {key};
  }

  // What taking one thing out of a table does.

  lemma WithoutInv(tb: Table, kind: Kind, key: Key)
    requires TableInv(tb) && Present(tb, kind, key)
    ensures TableInv(Without(tb, kind, key)) && Size(Without(tb, kind, key)) == Size(tb) - 1
  {
    match kind
    case Udp => SmallerMap(tb.entries, key);
    case Icmp => SmallerMap(tb.icmp, key);
    case Opening => SmallerMap(tb.opening, key);
  }

  predicate Present(tb: Table, kind: Kind, key: Key) {
    match kind
    case Udp => key in tb.entries
    case Icmp => key in tb.icmp
    case Opening => key in tb.opening
  }

  lemma WithoutHolds(tb: Table, kind: Kind, key: Key, k: Key, kd: Kind, l: Lease)
    ensures Holds(Without(tb, kind, key), k, kd, l) <==> Holds(tb, k, kd, l) && !(k == key && kd == kind)
  {
  }

  lemma LeaseAtHolds(tb: Table, kind: Kind, key: Key, l: Lease)
    ensures l in LeaseAt(tb, kind, key) <==> Holds(tb, key, kind, l)
  {
  }

  /** In an indexed table a lease is at one place, so losing the place is losing the lease. */
  lemma WithoutMoves(tb: Table, t: nat, home: map<Lease, Place>, kind: Kind, key: Key)
    requires Indexed(tb, t, home)
    ensures Moves(tb, Effect(Without(tb, kind, key), LeaseAt(tb, kind, key), Nothing))
  {
    var x := Effect(Without(tb, kind, key), LeaseAt(tb, kind, key), Nothing);
    forall k, kd, l ensures Holds(x.table, k, kd, l) <==> Holds(tb, k, kd, l) && Stays(x, l) {
      WithoutHolds(tb, kind, key, k, kd, l);
      LeaseAtHolds(tb, kind, key, l);
      if Holds(tb, k, kd, l) && Holds(tb, key, kind, l) {
        assert home[l] == In(t, k, kd) == In(t, key, kind);
      }
    }
  }

  lemma BeginInv(tb: Table, key: Key, v: Victim)
    requires TableInv(tb) && Absent(tb, key) && Evicts(tb, v) && tb.evicts && !tb.closed && |tb.opening| < MAX_ROUTES
    ensures TableInv(BeginRoute(tb, key, v).table)
  {
    var rest := if v.Oldest? then Without(tb, v.kind, v.key) else tb;
    if v.Oldest? {
      WithoutInv(tb, v.kind, v.key);
    }
    LargerMap(rest.opening, key, Reserving);
  }

  lemma BeginMoves(tb: Table, t: nat, home: map<Lease, Place>, key: Key, v: Victim)
    requires Indexed(tb, t, home) && Absent(tb, key)
    ensures Moves(tb, BeginRoute(tb, key, v))
  {
    var x := BeginRoute(tb, key, v);
    if v.Oldest? {
      WithoutMoves(tb, t, home, v.kind, v.key);
      var y := Effect(Without(tb, v.kind, v.key), LeaseAt(tb, v.kind, v.key), Nothing);
      forall k, kd, l ensures Holds(x.table, k, kd, l) <==> Holds(tb, k, kd, l) && Stays(x, l) {
        assert Holds(y.table, k, kd, l) <==> Holds(tb, k, kd, l) && Stays(y, l);
      }
    }
  }

  lemma HoldInv(tb: Table, key: Key, l: Lease)
    requires TableInv(tb) && (key !in tb.opening ==> Absent(tb, key) && Size(tb) < Limit(tb))
    ensures TableInv(Hold(tb, key, l).table)
  {
    LargerMap(tb.opening, key, Holding(l));
  }

  lemma HoldMoves(tb: Table, key: Key, l: Lease)
    requires key in tb.opening ==> tb.opening[key].Reserving?
    requires forall k, kind :: !Holds(tb, k, kind, l)
    ensures Moves(tb, Hold(tb, key, l))
  {
    var x := Hold(tb, key, l);
    forall k, kind, m
      ensures Holds(x.table, k, kind, m) <==> x.put == Put(m, k, kind) || (Holds(tb, k, kind, m) && Stays(x, m))
    {
      assert !Holds(tb, k, kind, l);
    }
  }

  lemma FinishInv(tb: Table, key: Key, made: Made)
    requires TableInv(tb) && key in tb.opening
    ensures TableInv(Finish(tb, key, made).table)
  {
    var rest := Without(tb, Opening, key);
    WithoutInv(tb, Opening, key);
    if made.Made? && tb.opening[key].Holding? {
      LargerMap(rest.entries, key, Route(tb.opening[key].lease, made.last));
      LargerMap(rest.icmp, key, Route(tb.opening[key].lease, made.last));
    }
  }

  lemma FinishMoves(tb: Table, t: nat, home: map<Lease, Place>, key: Key, made: Made)
    requires TableInv(tb) && Indexed(tb, t, home) && key in tb.opening
    ensures Moves(tb, Finish(tb, key, made))
  {
    var x := Finish(tb, key, made);
    WithoutMoves(tb, t, home, Opening, key);
    if x.put.Put? {
      var y := Effect(Without(tb, Opening, key), LeaseAt(tb, Opening, key), Nothing);
      forall k, kd, l
        ensures Holds(x.table, k, kd, l) <==> x.put == Put(l, k, kd) || (Holds(tb, k, kd, l) && Stays(x, l))
      {
        assert Holds(y.table, k, kd, l) <==> Holds(tb, k, kd, l) && Stays(y, l);
      }
    }
  }

  lemma FilteredMap(m: map<Key, Route>, f: map<Key, Route>)
    requires f.Keys <= m.Keys
    ensures |f| <= |m|
  {
    Fewer(f.Keys, m.Keys);
  }

  lemma ExpireMoves(tb: Table, t: nat, home: map<Lease, Place>, now: int)
    requires TableInv(tb) && Indexed(tb, t, home)
    ensures Moves(tb, Expire(tb, now)) && TableInv(Expire(tb, now).table)
  {
    var x := Expire(tb, now);
    FilteredMap(tb.entries, x.table.entries);
    FilteredMap(tb.icmp, x.table.icmp);
    forall k, kind, l ensures Holds(x.table, k, kind, l) <==> Holds(tb, k, kind, l) && Stays(x, l) {
      ExpireOne(tb, t, home, now, k, kind, l);
    }
  }

  lemma ExpireOne(tb: Table, t: nat, home: map<Lease, Place>, now: int, k: Key, kind: Kind, l: Lease)
    requires Indexed(tb, t, home)
    ensures Holds(Expire(tb, now).table, k, kind, l) <==> Holds(tb, k, kind, l) && l !in Expire(tb, now).gone
  {
    if Holds(tb, k, kind, l) && l in Expire(tb, now).gone {
      if l in StaleLeases(tb.entries, now) {
        var key :| key in tb.entries && Stale(tb.entries[key], now) && tb.entries[key].lease == l;
        assert Holds(tb, key, Udp, l);
      } else {
        var key :| key in tb.icmp && Stale(tb.icmp[key], now) && tb.icmp[key].lease == l;
        assert Holds(tb, key, Icmp, l);
      }
    }
  }

  lemma RemoveMoves(tb: Table, t: nat, home: map<Lease, Place>, key: Key, kind: Kind, l: Lease)
    requires Indexed(tb, t, home) && l in home && (home[l] == Gone || home[l] == In(t, key, kind))
    ensures Moves(tb, Remove(tb, key, kind, l))
  {
    var x := Remove(tb, key, kind, l);
    if Holds(tb, key, kind, l) {
      LeaseAtHolds(tb, kind, key, l);
      assert LeaseAt(tb, kind, key) == {l};
      WithoutMoves(tb, t, home, kind, key);
    } else {
      forall k, kd, m ensures Holds(x.table, k, kd, m) <==> Holds(tb, k, kd, m) && Stays(x, m) {
        if Holds(tb, k, kd, m) {
          assert home[m] == In(t, k, kd);
        }
      }
    }
  }

  lemma CloseMoves(tb: Table, t: nat, home: map<Lease, Place>)
    requires TableInv(tb) && Indexed(tb, t, home)
    ensures Moves(tb, Close(tb)) && TableInv(Close(tb).table)
  {
    var x := Close(tb);
    forall k, kind, l ensures Holds(x.table, k, kind, l) <==> Holds(tb, k, kind, l) && Stays(x, l) {
      if Holds(tb, k, kind, l) && l in x.gone {
        if l in Leases(tb.entries) {
          var key :| key in tb.entries && tb.entries[key].lease == l;
          assert Holds(tb, key, Udp, l);
        } else {
          var key :| key in tb.icmp && tb.icmp[key].lease == l;
          assert Holds(tb, key, Icmp, l);
        }
      }
    }
  }

  lemma TouchMoves(tb: Table, key: Key, now: int)
    requires TableInv(tb)
    ensures Moves(tb, TouchTable(tb, key, now)) && TableInv(TouchTable(tb, key, now).table)
  {
    var x := TouchTable(tb, key, now);
    assert x.table.entries.Keys == tb.entries.Keys && x.table.icmp.Keys == tb.icmp.Keys;
  }

  // ---------------------------------------------------------------- all tables

  /** What the leases an effect moves must be, before it. */
  ghost predicate Allowed(home: map<Lease, Place>, t: nat, x: Effect) {
    && (forall l | l in x.gone :: l in home && home[l] != Outside && (home[l].In? ==> home[l].table == t))
    && (x.put.Put? ==>
          && x.put.lease !in x.gone
          && (x.put.lease in home ==> home[x.put.lease].In? && home[x.put.lease].table == t))
  }

  lemma RehomeIndexed(tables: seq<Table>, home: map<Lease, Place>, t: nat, x: Effect, u: nat)
    requires t < |tables| && u < |tables| && Indexed(tables[u], u, home) && Moves(tables[t], x) && Allowed(home, t, x)
    ensures Indexed(tables[t := x.table][u], u, Rehome(home, t, x))
  {
    var tb, home' := tables[t := x.table][u], Rehome(home, t, x);
    forall key, kind, l | Holds(tb, key, kind, l) ensures l in home' && home'[l] == In(u, key, kind) {
      if u == t {
        assert x.put == Put(l, key, kind) || (Holds(tables[t], key, kind, l) && Stays(x, l));
      } else {
        assert home[l] == In(u, key, kind);
      }
    }
  }

  lemma RehomePlaced(tables: seq<Table>, home: map<Lease, Place>, live: map<Lease, Identity>,
                     live': map<Lease, Identity>, t: nat, x: Effect, l: Lease)
    requires t < |tables| && Placed(tables, home, live, l) && Moves(tables[t], x)
    requires live.Keys <= live'.Keys && (x.put.Put? ==> x.put.lease in live')
    ensures Placed(tables[t := x.table], Rehome(home, t, x), live', l)
  {
    var home' := Rehome(home, t, x);
    if l in home' && home'[l].In? {
      if x.put.Put? && x.put.lease == l {
        assert Holds(x.table, x.put.key, x.put.kind, l);
      } else if home[l].table == t {
        assert Holds(x.table, home[l].key, home[l].kind, l) <==>
               Holds(tables[t], home[l].key, home[l].kind, l) && Stays(x, l);
      }
    }
  }

  lemma RehomeOwed(w: World, t: nat, x: Effect, w': World)
    requires Owed(w) && Allowed(w.home, t, x)
    requires w'.home == Rehome(w.home, t, x) && w'.closing == w.closing + x.gone
    requires w'.live.Keys <= w.live.Keys + (if x.put.Put? then {x.put.lease} else {})
    ensures Owed(w')
  {
  }

  /** Which leases each event moves, and that it may. */
  lemma EventMoves(w: World, t: nat, e: Event)
    requires Inv(w) && t < |w.tables| && Enabled(w, w.tables[t], t, e)
    ensures var x := EffectOf(w.tables[t], e);
      Moves(w.tables[t], x) && TableInv(x.table) && Allowed(w.home, t, x)
  {
    var tb := w.tables[t];
    assert TableInv(tb) && Indexed(tb, t, w.home);
    match e
    case Begin(key, victim) =>
      BeginInv(tb, key, victim);
      BeginMoves(tb, t, w.home, key, victim);
      if victim.Oldest? {
        GoneAllowed(tb, t, w.home, BeginRoute(tb, key, victim), victim.kind, victim.key);
      }
    case Reserve(key, id, l) => HoldEvent(tb, t, w.home, key, l);
    case BeginTarget(key, id, l) => HoldEvent(tb, t, w.home, key, l);
    case End(key, made) =>
      FinishInv(tb, key, made);
      FinishMoves(tb, t, w.home, key, made);
      GoneAllowed(tb, t, w.home, Finish(tb, key, made), Opening, key);
    case Use(key, now) => TouchMoves(tb, key, now);
    case Sweep(now) =>
      ExpireMoves(tb, t, w.home, now);
      SweepAllowed(tb, t, w.home, now);
    case Drop(key, kind, l) =>
      RemoveMoves(tb, t, w.home, key, kind, l);
      if Holds(tb, key, kind, l) {
        WithoutInv(tb, kind, key);
      }
    case Shut =>
      CloseMoves(tb, t, w.home);
      ShutAllowed(tb, t, w.home);
  }

  lemma HoldEvent(tb: Table, t: nat, home: map<Lease, Place>, key: Key, l: Lease)
    requires TableInv(tb) && Indexed(tb, t, home) && l !in home
    requires key in tb.opening ==> tb.opening[key].Reserving?
    requires key !in tb.opening ==> Absent(tb, key) && Size(tb) < Limit(tb)
    ensures var x := Hold(tb, key, l); Moves(tb, x) && TableInv(x.table) && Allowed(home, t, x)
  {
    HoldInv(tb, key, l);
    HoldMoves(tb, key, l);
  }

  lemma GoneAllowed(tb: Table, t: nat, home: map<Lease, Place>, x: Effect, kind: Kind, key: Key)
    requires Indexed(tb, t, home) && x.gone <= LeaseAt(tb, kind, key)
    requires x.put.Put? ==> x.gone == {} && x.put.lease in LeaseAt(tb, kind, key)
    ensures Allowed(home, t, x)
  {
    forall l | l in LeaseAt(tb, kind, key) ensures l in home && home[l] == In(t, key, kind) {
      LeaseAtHolds(tb, kind, key, l);
    }
  }

  lemma SweepAllowed(tb: Table, t: nat, home: map<Lease, Place>, now: int)
    requires Indexed(tb, t, home)
    ensures Allowed(home, t, Expire(tb, now))
  {
    forall l | l in Expire(tb, now).gone ensures l in home && home[l].In? && home[l].table == t {
      if l in StaleLeases(tb.entries, now) {
        var key :| key in tb.entries && Stale(tb.entries[key], now) && tb.entries[key].lease == l;
        assert Holds(tb, key, Udp, l);
      } else {
        var key :| key in tb.icmp && Stale(tb.icmp[key], now) && tb.icmp[key].lease == l;
        assert Holds(tb, key, Icmp, l);
      }
    }
  }

  lemma ShutAllowed(tb: Table, t: nat, home: map<Lease, Place>)
    requires Indexed(tb, t, home)
    ensures Allowed(home, t, Close(tb))
  {
    forall l | l in Close(tb).gone ensures l in home && home[l].In? && home[l].table == t {
      if l in Leases(tb.entries) {
        var key :| key in tb.entries && tb.entries[key].lease == l;
        assert Holds(tb, key, Udp, l);
      } else {
        var key :| key in tb.icmp && tb.icmp[key].lease == l;
        assert Holds(tb, key, Icmp, l);
      }
    }
  }

  lemma PutIsLive(w: World, t: nat, e: Event)
    requires Inv(w) && t < |w.tables| && Enabled(w, w.tables[t], t, e)
    ensures var x := EffectOf(w.tables[t], e); x.put.Put? ==> x.put.lease in Apply(w, t, e).live
  {
    var tb := w.tables[t];
    if e.End? && tb.opening[e.key].Holding? {
      var l := tb.opening[e.key].lease;
      assert Indexed(tb, t, w.home) && Holds(tb, e.key, Opening, l);
      assert Placed(w.tables, w.home, w.live, l);
    }
  }

  lemma ApplyKeeps(w: World, t: nat, e: Event)
    requires Inv(w) && t < |w.tables| && Enabled(w, w.tables[t], t, e)
    ensures Inv(Apply(w, t, e))
  {
    var x, w' := EffectOf(w.tables[t], e), Apply(w, t, e);
    EventMoves(w, t, e);
    PutIsLive(w, t, e);
    forall u: nat | u < |w'.tables| ensures TableInv(w'.tables[u]) && Indexed(w'.tables[u], u, w'.home) {
      RehomeIndexed(w.tables, w.home, t, x, u);
    }
    forall l: Lease ensures Placed(w'.tables, w'.home, w'.live, l) {
      RehomePlaced(w.tables, w.home, w.live, w'.live, t, x, l);
    }
    RehomeOwed(w, t, x, w');
    if e.Reserve? || e.BeginTarget? {
      ReserveCounts(w.budget, w.live, e.lease, e.id);
    }
  }

  lemma GiveBackKeeps(w: World, l: Lease)
    requires Inv(w) && l in w.closing
    ensures Inv(GiveBack(w, l))
  {
    var w' := GiveBack(w, l);
    forall m: Lease ensures Placed(w'.tables, w'.home, w'.live, m) {
      assert Placed(w.tables, w.home, w.live, m);
    }
    if l in w.live {
      ReleaseCounts(w.budget, w.live, l);
    }
  }

  lemma BorrowKeeps(w: World, id: Identity, l: Lease)
    requires Inv(w) && CanReserve(w.budget, id) && l !in w.home
    ensures Inv(Borrowed(w, id, l))
  {
    var w' := Borrowed(w, id, l);
    ReserveCounts(w.budget, w.live, l, id);
    forall m: Lease ensures Placed(w'.tables, w'.home, w'.live, m) {
      assert Placed(w.tables, w.home, w.live, m);
    }
  }

  lemma HandBackKeeps(w: World, l: Lease)
    requires Inv(w) && l in w.home && w.home[l] == Outside
    ensures Inv(w.(home := w.home[l := Gone], closing := w.closing + {l}))
  {
    var w' := w.(home := w.home[l := Gone], closing := w.closing + {l});
    forall m: Lease ensures Placed(w'.tables, w'.home, w'.live, m) {
      assert Placed(w.tables, w.home, w.live, m);
    }
  }

  lemma {:induction false} RunKeeps(w: World, steps: seq<Step>, end: World)
    requires Inv(w) && Reaches(w, steps, end)
    ensures Inv(end)
    decreases |steps|
  {
    if steps != [] {
      match steps[0] {
        case At(t, e) => ApplyKeeps(w, t, e);
        case Borrow(id, l) => BorrowKeeps(w, id, l);
        case HandBack(l) => HandBackKeeps(w, l);
        case Return(l) => GiveBackKeeps(w, l);
      }
      RunKeeps(Next(w, steps[0]), steps[1..], end);
    }
  }

  // ---------------------------------------------------------------- theorems

  /** Tables without routes, of either kind, and an unused budget. */
  function Start(evicts: seq<bool>): World {
    World(seq(|evicts|, i requires 0 <= i < |evicts| => Table(evicts[i], false, map[], map[], map[])),
          Budget(0, map[]), map[], map[], {})
  }

  lemma StartInv(evicts: seq<bool>)
    ensures Inv(Start(evicts))
  {
  }

  ghost predicate Reachable(w: World) { exists evicts, steps :: Reaches(Start(evicts), steps, w) }

  lemma ReachableInv(w: World)
    requires Reachable(w)
    ensures Inv(w)
  {
    var evicts, steps :| Reaches(Start(evicts), steps, w);
    StartInv(evicts);
    RunKeeps(Start(evicts), steps, w);
  }

  /** In every run the counters are the live leases and never exceed the limits, each table stays within
      its own limit, and a key is in at most one of its maps. */
  lemma LedgerIsSound(w: World, id: Identity, t: nat)
    requires Reachable(w) && t < |w.tables|
    ensures w.budget.used == |w.live| <= MAX_TARGETS
    ensures Used(w.budget, id) == |Held(w.live, id)| <= MAX_USER_TARGETS
    ensures Size(w.tables[t]) <= Limit(w.tables[t])
    ensures w.tables[t].entries.Keys !! w.tables[t].icmp.Keys
    ensures w.tables[t].entries.Keys !! w.tables[t].opening.Keys
    ensures w.tables[t].icmp.Keys !! w.tables[t].opening.Keys
  {
    ReachableInv(w);
    assert TableInv(w.tables[t]);
  }

  /** Every live lease is held at exactly one place of one table, or outside the tables, or is on its way
      back; whatever is held is live. */
  lemma LeaseHasOnePlace(w: World, l: Lease)
    requires Reachable(w)
    ensures l in w.live ==> l in w.home
    ensures l in w.live && w.home[l] == Gone ==> l in w.closing
    ensures l in w.home && w.home[l].In? ==>
      l in w.live && w.home[l].table < |w.tables| && Holds(w.tables[w.home[l].table], w.home[l].key, w.home[l].kind, l)
    ensures l in w.home && w.home[l] == Outside ==> l in w.live && l !in w.closing
    ensures forall t: nat, key, kind | t < |w.tables| && Holds(w.tables[t], key, kind, l) ::
      l in w.live && l !in w.closing && w.home[l] == In(t, key, kind)
  {
    ReachableInv(w);
    assert Placed(w.tables, w.home, w.live, l);
    forall t: nat, key, kind | t < |w.tables| && Holds(w.tables[t], key, kind, l)
      ensures l in w.live && l !in w.closing && w.home[l] == In(t, key, kind)
    {
      assert Indexed(w.tables[t], t, w.home);
    }
  }

  /** When nothing is held in or outside the tables, nor on its way back, every lease has been returned. */
  lemma AllReturned(w: World)
    requires Reachable(w) && w.closing == {}
    requires forall l | l in w.home :: w.home[l] != Outside
    requires forall t: nat | t < |w.tables| :: Size(w.tables[t]) == 0
    ensures w.budget.used == 0 && w.budget.users == map[]
  {
    ReachableInv(w);
    forall l: Lease ensures l !in w.live {
      NotLive(w, l);
    }
    assert w.live == map[];
    forall id: Identity ensures id !in w.budget.users {
      assert Held(w.live, id) == {};
      assert Used(w.budget, id) == |Held(w.live, id)|;
    }
  }

  lemma NotLive(w: World, l: Lease)
    requires Inv(w) && w.closing == {} && (forall m | m in w.home :: w.home[m] != Outside)
    requires forall t: nat | t < |w.tables| :: Size(w.tables[t]) == 0
    ensures l !in w.live
  {
    assert Placed(w.tables, w.home, w.live, l);
  }

  /** A lease that was returned stays returned: no later step returns it again or lends it out. */
  lemma {:induction false} ReturnedOnce(w: World, steps: seq<Step>, end: World, l: Lease)
    requires Inv(w) && Reaches(w, steps, end) && l in w.home && l !in w.live
    ensures l in end.home && l !in end.live
    decreases |steps|
  {
    if steps != [] {
      match steps[0] {
        case At(t, e) => ApplyKeeps(w, t, e);
        case Borrow(id, m) => BorrowKeeps(w, id, m);
        case HandBack(m) => HandBackKeeps(w, m);
        case Return(m) => GiveBackKeeps(w, m);
      }
      ReturnedOnce(Next(w, steps[0]), steps[1..], end, l);
    }
  }

  /** A relay takes a new target exactly while it is open, has no more than 63, and the budget has room. */
  lemma RelayAdmits(w: World, tb: Table, t: nat, key: Key, id: Identity, l: Lease)
    requires !tb.evicts
    ensures Enabled(w, tb, t, BeginTarget(key, id, l)) <==>
      && !tb.closed && key !in tb.entries && key !in tb.icmp && key !in tb.opening
      && |tb.entries| + |tb.icmp| + |tb.opening| < 64
      && w.budget.used < 1024 && (id in w.budget.users ==> w.budget.users[id] < 256) && l !in w.home
  {
  }

  /** A route that is used is not expired for a minute. */
  lemma UsedIsKept(tb: Table, key: Key, used: int, now: int)
    requires now - used < 60_000_000_000
    ensures var touched := EffectOf(tb, Use(key, used)).table; var swept := EffectOf(touched, Sweep(now)).table;
      && (key in tb.entries ==> key in swept.entries && swept.entries[key].lease == tb.entries[key].lease)
      && (key in tb.icmp ==> key in swept.icmp && swept.icmp[key].lease == tb.icmp[key].lease)
  {
  }
}
