/** The target budget of pkg/server/udp_budget.go: a global count and a count per identity.  The
    reference counts a set of live leases; the counters are proved to agree with it, so that the two
    limits bound the leases themselves, and releasing a lease twice is releasing it once. */
module UdpBudget {

  const MAX_TARGETS := 1024
  const MAX_USER_TARGETS := 256

  type Identity = nat
  type Lease = nat

  datatype Budget = Budget(used: int, users: map<Identity, int>)

  /** A missing identity counts as zero. */
  function Used(b: Budget, id: Identity): int { if id in b.users then b.users[id] else 0 }

  predicate CanReserve(b: Budget, id: Identity) { b.used < MAX_TARGETS && Used(b, id) < MAX_USER_TARGETS }

  function Reserved(b: Budget, id: Identity): Budget {
    Budget(b.used + 1, b.users[id := Used(b, id) + 1])
  }

  function Released(b: Budget, id: Identity): Budget {
    Budget(b.used - 1, if Used(b, id) == 1 then b.users - {id} else b.users[id := Used(b, id) - 1])
  }

  function Held(live: map<Lease, Identity>, id: Identity): set<Lease> {
    set l | l in live && live[l] == id
  }

  /** The counters are the numbers of live leases. */
  ghost predicate Counts(b: Budget, live: map<Lease, Identity>) {
    && b.used == |live|
    && (forall id: Identity :: Used(b, id) == |Held(live, id)|)
    && (forall id | id in b.users :: b.users[id] > 0)
  }

  ghost predicate Within(b: Budget) { b.used <= MAX_TARGETS && forall id: Identity :: Used(b, id) <= MAX_USER_TARGETS }

  lemma HeldMore(live: map<Lease, Identity>, l: Lease, id: Identity, other: Identity)
    requires l !in live
    ensures |live[l := id]| == |live| + 1
    ensures |Held(live[l := id], other)| == |Held(live, other)| + (if other == id then 1 else 0)
  {
    var more := live[l := id];
    assert more.Keys == live.Keys + {l};
    if other == id {
      assert Held(more, other) == Held(live, other) + {l};
    } else {
      assert Held(more, other) == Held(live, other);
    }
  }

  lemma HeldLess(live: map<Lease, Identity>, l: Lease, other: Identity)
    requires l in live
    ensures |live - {l}| == |live| - 1
    ensures |Held(live - {l}, other)| == |Held(live, other)| - (if other == live[l] then 1 else 0)
  {
    var less := live - {l};
    assert less.Keys == live.Keys - {l};
    if other == live[l] {
      assert Held(less, other) == Held(live, other) - {l};
    } else {
      assert Held(less, other) == Held(live, other);
    }
  }

  lemma ReserveCounts(b: Budget, live: map<Lease, Identity>, l: Lease, id: Identity)
    requires Counts(b, live) && Within(b) && CanReserve(b, id) && l !in live
    ensures Counts(Reserved(b, id), live[l := id]) && Within(Reserved(b, id))
  {
    var b' := Reserved(b, id);
    HeldMore(live, l, id, id);
    forall other: Identity ensures Used(b', other) == |Held(live[l := id], other)| {
      HeldMore(live, l, id, other);
    }
    forall other: Identity ensures Used(b', other) <= MAX_USER_TARGETS {
      assert Used(b, other) <= MAX_USER_TARGETS;
    }
  }

  lemma ReleaseCounts(b: Budget, live: map<Lease, Identity>, l: Lease)
    requires Counts(b, live) && Within(b) && l in live
    ensures Counts(Released(b, live[l]), live - {l}) && Within(Released(b, live[l]))
  {
    var b' := Released(b, live[l]);
    HeldLess(live, l, live[l]);
    assert l in Held(live, live[l]);
    forall other: Identity ensures Used(b', other) == |Held(live - {l}, other)| && Used(b', other) <= MAX_USER_TARGETS {
      HeldLess(live, l, other);
      assert Used(b, other) <= MAX_USER_TARGETS;
    }
  }

  /** The counters as they are kept. */
  class TargetBudget {
    var used: int
    var users: map<Identity, int>

    ghost function State(): Budget reads this { Budget(used, users) }

    constructor () ensures State() == Budget(0, map[]) { used, users := 0, map[]; }

    method Reserve(id: Identity) returns (ok: bool)
      modifies this
      ensures ok == CanReserve(old(State()), id)
      ensures ok <==> old(used) < 1024 && (id in old(users) ==> old(users)[id] < 256)
      ensures State() == if ok then Reserved(old(State()), id) else old(State())
    {
      var mine := if id in users then users[id] else 0;
      if used >= MAX_TARGETS || mine >= MAX_USER_TARGETS {
        return false;
      }
      used, users := used + 1, users[id := mine + 1];
      return true;
    }
  }

  /** The function a reservation hands out: it returns the lease the first time it is called. */
  class Releaser {
    const budget: TargetBudget
    const id: Identity
    var done: bool

    constructor (budget: TargetBudget, id: Identity)
      ensures this.budget == budget && this.id == id && !done
    {
      this.budget, this.id, done := budget, id, false;
    }

    method Call()
      modifies this, budget
      ensures done
      ensures budget.State() == if old(done) then old(budget.State()) else Released(old(budget.State()), id)
    {
      if !done {
        done := true;
        budget.used := budget.used - 1;
        var left := (if id in budget.users then budget.users[id] else 0) - 1;
        budget.users := budget.users[id := left];
        if left == 0 {
          budget.users := budget.users - {id};
        }
        assert left == 0 ==> budget.users == old(budget.users) - {id};
      }
    }
  }
}
