/** The locked sections of udpRoutes as they run: the tables are searched and changed in place, and what
    has to be closed afterwards is collected.  Each is proved to have the effect that `UdpRoutes`
    gives it. */
module UdpRouteTable {
  import opened UdpBudget
  import opened UdpRoutes

  datatype Answer = Closed | FoundUdp(route: Route) | FoundIcmp(route: Route) | Wait | Full | Started

  class RouteTable {
    var closed: bool
    var entries: map<Key, Route>
    var icmp: map<Key, Route>
    var opening: map<Key, Pending>

    ghost function State(): Table
      reads this
    {
      Table(true, closed, entries, icmp, opening)
    }

    constructor ()
      ensures State() == Table(true, false, map[], map[], map[])
    {
      closed, entries, icmp, opening := false, map[], map[], map[];
    }

    /** The time of last use is a clock reading, below the largest 64-bit integer. */
    ghost predicate Timely(m: map<Key, Route>) { forall k | k in m :: m[k].last < MAX_TIME }

    /** Searches one map for a route used before `bound`. */
    method FindOldest(m: map<Key, Route>, bound: int) returns (found: bool, key: Key, time: int)
      ensures !found ==> time == bound && forall k | k in m :: m[k].last >= bound
      ensures found ==> key in m && m[key].last == time < bound && forall k | k in m :: time <= m[k].last
    {
      found, key, time := false, 0, bound;
      var left := m.Keys;
      while left != {}
        invariant left <= m.Keys
        invariant !found ==> time == bound
        invariant found ==> key in m && m[key].last == time < bound
        invariant forall k | k in m && k !in left :: time <= m[k].last
        decreases |left|
      {
        var k :| k in left;
        if m[k].last < time {
          found, key, time := true, k, m[k].last;
        }
        left := left - {k};
      }
    }

    /** Makes room by taking out the route used least recently. */
    method EvictOldest() returns (v: Victim, gone: set<Lease>)
      requires Timely(entries) && Timely(icmp)
      modifies this`entries, this`icmp
      ensures Evicts(old(State()), v)
      ensures v == NoVictim <==>
        |old(entries)| + |old(icmp)| + |old(opening)| < 1024 || (old(entries) == map[] && old(icmp) == map[])
      ensures v.Oldest? ==>
        && (v.kind == Udp || v.kind == Icmp) && v.key in (if v.kind == Udp then old(entries) else old(icmp))
        && var last := (if v.kind == Udp then old(entries) else old(icmp))[v.key].last;
          && (forall k | k in old(entries) :: last <= old(entries)[k].last)
          && (forall k | k in old(icmp) :: last <= old(icmp)[k].last)
      ensures v == NoVictim ==> State() == old(State()) && gone == {}
      ensures v.Oldest? ==>
        State() == Without(old(State()), v.kind, v.key) && gone == LeaseAt(old(State()), v.kind, v.key)
    {
      v, gone := NoVictim, {};
      if |entries| + |icmp| + |opening| < MAX_ROUTES {
        return;
      }
      var foundUdp, udpKey, udpTime := FindOldest(entries, MAX_TIME);
      var foundIcmp, icmpKey, icmpTime := FindOldest(icmp, udpTime);
      if foundIcmp {
        v, gone := Oldest(Icmp, icmpKey), {icmp[icmpKey].lease};
        icmp := icmp - {icmpKey};
      } else if foundUdp {
        v, gone := Oldest(Udp, udpKey), {entries[udpKey].lease};
        entries := entries - {udpKey};
      }
    }

    /** What a writer finds under the lock: a route, a creation to wait for, or leave to create one. */
    method Begin(key: Key) returns (answer: Answer, gone: set<Lease>, ghost v: Victim)
      requires Timely(entries) && Timely(icmp)
      modifies this`entries, this`icmp, this`opening
      ensures var tb := old(State());
        answer == if tb.closed then Closed
                  else if key in tb.entries then FoundUdp(tb.entries[key])
                  else if key in tb.icmp then FoundIcmp(tb.icmp[key])
                  else if key in tb.opening then Wait
                  else if |tb.opening| >= 1024 then Full
                  else Started
      ensures answer == Started ==> Evicts(old(State()), v) && key in opening && opening[key] == Reserving
      ensures answer == Started ==> Effect(State(), gone, Nothing) == BeginRoute(old(State()), key, v)
      ensures answer != Started ==> State() == old(State()) && gone == {}
    {
      gone, v := {}, NoVictim;
      if closed {
        return Closed, {}, NoVictim;
      }
      if key in entries {
        return FoundUdp(entries[key]), {}, NoVictim;
      }
      if key in icmp {
        return FoundIcmp(icmp[key]), {}, NoVictim;
      }
      if key in opening {
        return Wait, {}, NoVictim;
      }
      if |opening| >= MAX_ROUTES {
        return Full, {}, NoVictim;
      }
      v, gone := EvictOldest();
      opening := opening[key := Reserving];
      answer := Started;
    }

    /** Publishes the route, or gives the lease up when creation failed or the table was closed. */
    method Finish(key: Key, made: Made) returns (gone: set<Lease>)
      requires key in opening && (made.Made? ==> made.kind != Opening && opening[key].Holding?)
      modifies this`entries, this`icmp, this`opening
      ensures State() == UdpRoutes.Finish(old(State()), key, made).table
      ensures gone == UdpRoutes.Finish(old(State()), key, made).gone
      ensures !closed && made.Made? ==>
        var m := if made.kind == Icmp then icmp else entries;
        key in m && m[key] == Route(old(opening[key]).lease, made.last) && gone == {}
    {
      gone := {};
      var pending := opening[key];
      if !closed && made.Made? {
        if made.kind == Icmp {
          icmp := icmp[key := Route(pending.lease, made.last)];
        } else {
          entries := entries[key := Route(pending.lease, made.last)];
        }
      } else if pending.Holding? {
        gone := {pending.lease};
      }
      opening := opening - {key};
    }

    method ExpireMap(m: map<Key, Route>, now: int) returns (rest: map<Key, Route>, gone: set<Lease>)
      ensures rest == Live(m, now) && gone == StaleLeases(m, now)
      ensures forall k :: k in rest <==> k in m && now - m[k].last < 60_000_000_000
      ensures forall k | k in rest :: rest[k] == m[k]
      ensures forall l :: l in gone <==> exists k :: k in m && m[k].lease == l && now - m[k].last >= 60_000_000_000
    {
      rest, gone := m, {};
      var left := m.Keys;
      while left != {}
        invariant left <= m.Keys
        invariant forall k :: k in rest <==> k in m && (k in left || !Stale(m[k], now))
        invariant forall k | k in rest :: rest[k] == m[k]
        invariant gone == set k | k in m && k !in left && Stale(m[k], now) :: m[k].lease
        decreases |left|
      {
        var k :| k in left;
        if now - m[k].last >= IDLE {
          rest := rest - {k};
          gone := gone + {m[k].lease};
        }
        left := left - {k};
      }
    }

    method Expire(now: int) returns (gone: set<Lease>)
      modifies this`entries, this`icmp
      ensures Effect(State(), gone, Nothing) == UdpRoutes.Expire(old(State()), now)
      ensures forall k :: k in entries <==> k in old(entries) && now - old(entries)[k].last < 60_000_000_000
      ensures forall k :: k in icmp <==> k in old(icmp) && now - old(icmp)[k].last < 60_000_000_000
    {
      var udpGone, icmpGone;
      entries, udpGone := ExpireMap(entries, now);
      icmp, icmpGone := ExpireMap(icmp, now);
      gone := udpGone + icmpGone;
    }

    method Remove(key: Key, kind: Kind, l: Lease)
      requires kind != Opening
      modifies this`entries, this`icmp
      ensures State() == UdpRoutes.Remove(old(State()), key, kind, l).table
    {
      if kind == Udp {
        if key in entries && entries[key].lease == l {
          entries := entries - {key};
        }
      } else if key in icmp && icmp[key].lease == l {
        icmp := icmp - {key};
      }
    }

    method Close() returns (udp: map<Key, Route>, icmps: map<Key, Route>)
      modifies this`closed, this`entries, this`icmp
      ensures Effect(State(), Leases(udp) + Leases(icmps), Nothing) == UdpRoutes.Close(old(State()))
      ensures closed && entries == map[] && icmp == map[] && udp == old(entries) && icmps == old(icmp)
    {
      closed := true;
      udp, icmps := entries, icmp;
      entries, icmp := map[], map[];
    }
  }
}
