/** The packet queue of integration/mihomo_tunnel/chitanda_sender_queue.go.

    The reference keeps each queue as a plain sequence.  Queues share one byte budget; an operation is a
    step that its lock makes atomic, and a push that evicts a stale packet is two steps, since other
    queues may change the budget between its release and its reservation.  Over every run the queue is
    first in, first out, every packet offered has exactly one fate, all limits hold, and a queue that
    has packets has a wake-up token or a consumer at work.  The class keeps a ring that wraps, doubles
    and shrinks, and is proved to do the same. */
module SenderQueue {

  const INITIAL := 32
  const MAX := 8192
  const MAX_AGE := 3_000_000_000
  const FLOW := 12 * 1024 * 1024
  const GLOBAL := 64 * 1024 * 1024

  datatype Item = Item(packet: nat, added: int, size: nat)

  /** How a packet left the queue: handed to a consumer, or dropped. */
  datatype Removal = Removal(item: Item, delivered: bool)

  function Bytes(items: seq<Item>): nat {
    if items == [] then 0 else items[0].size + Bytes(items[1..])
  }

  function Items(removed: seq<Removal>): seq<Item> {
    seq(|removed|, i requires 0 <= i < |removed| => removed[i].item)
  }

  predicate Young(item: Item, now: int) { now - item.added <= MAX_AGE }

  // ---------------------------------------------------------------- one queue as a sequence

  /** `pushing` is the packet of a push that has evicted the head and still holds the lock;
      `consumers` counts the consumers that hold a token or are inside a pop. */
  datatype Lane = Lane(
    items: seq<Item>,
    closed: bool,
    ready: bool,
    pushing: seq<Item>,
    consumers: nat,
    offered: seq<Item>,
    refused: seq<Item>,
    removed: seq<Removal>)

  const Empty := Lane([], false, false, [], 0, [], [], [])

  function Refuse(l: Lane, item: Item): Lane { l.(pushing := [], refused := l.refused + [item]) }

  /** The second half of a push: reserve and append, or refuse. */
  function Settle(l: Lane, item: Item, used: nat): Lane {
    if item.size > FLOW - Bytes(l.items) || item.size > GLOBAL - used then Refuse(l, item)
    else l.(items := l.items + [item], ready := true, pushing := [])
  }

  function Push(l: Lane, item: Item, now: int, used: nat): Lane {
    var o := l.(offered := l.offered + [item]);
    if l.closed then Refuse(o, item)
    else if |l.items| >= MAX then
      if Young(l.items[0], now) then Refuse(o, item)
      else o.(items := l.items[1..], removed := l.removed + [Removal(l.items[0], false)], pushing := [item])
    else Settle(o, item, used)
  }

  /** The first `n` packets, each delivered if it is young enough. */
  function Removals(items: seq<Item>, n: nat, now: int): (r: seq<Removal>)
    requires n <= |items|
    ensures |r| == n
  {
    seq(n, i requires 0 <= i < n => Removal(items[i], Young(items[i], now)))
  }

  predicate AnyDelivered(r: seq<Removal>) { exists i | 0 <= i < |r| :: r[i].delivered }

  /** One turn of a consumer that takes up to `max` packets; it goes on until it has one to return or
      finds the queue empty. */
  function Take(l: Lane, max: nat, now: int): Lane
    requires 0 < max
  {
    if l.items == [] then l.(consumers := if l.consumers > 0 then l.consumers - 1 else 0)
    else
      var n := if |l.items| > max then max else |l.items|;
      var r := Removals(l.items, n, now);
      l.(items := l.items[n..],
         removed := l.removed + r,
         ready := l.ready || |l.items| > n,
         consumers := if AnyDelivered(r) && l.consumers > 0 then l.consumers - 1 else l.consumers)
  }

  function Close(l: Lane): Lane {
    var dropped := seq(|l.items|, i requires 0 <= i < |l.items| => Removal(l.items[i], false));
    l.(items := [], closed := true, removed := l.removed + dropped)
  }

  // ---------------------------------------------------------------- all queues and the budget

  datatype Event =
    | Offer(item: Item, now: int)
    | Finish
    | Wake
    | Enter
    | Turn(max: nat, now: int)
    | Shut

  /** The lock excludes everything but receiving a token while a push holds it. */
  predicate Enabled(l: Lane, e: Event) {
    match e
    case Offer(_, _) => l.pushing == []
    case Finish => l.pushing != []
    case Wake => l.ready
    case Enter => true
    case Turn(max, _) => l.pushing == [] && l.consumers > 0 && max > 0
    case Shut => l.pushing == []
  }

  function Apply(l: Lane, e: Event, used: nat): Lane
    requires Enabled(l, e)
  {
    match e
    case Offer(item, now) => Push(l, item, now, used)
    case Finish => Settle(l, l.pushing[0], used)
    case Wake => l.(ready := false, consumers := l.consumers + 1)
    case Enter => l.(consumers := l.consumers + 1)
    case Turn(max, now) => Take(l, max, now)
    case Shut => Close(l)
  }

  /** Reservations and releases follow the bytes queued. */
  function Charge(before: Lane, after: Lane, used: int): int {
    used + Bytes(after.items) - Bytes(before.items)
  }

  datatype World = World(lanes: seq<Lane>, used: int)

  datatype Step = Step(lane: nat, event: Event)

  predicate CanStep(w: World, s: Step) {
    s.lane < |w.lanes| && Enabled(w.lanes[s.lane], s.event) && w.used >= 0
  }

  function Next(w: World, s: Step): World
    requires CanStep(w, s)
  {
    var l := w.lanes[s.lane];
    var after := Apply(l, s.event, w.used);
    World(w.lanes[s.lane := after], Charge(l, after, w.used))
  }

  ghost predicate Reaches(w: World, steps: seq<Step>, end: World)
    decreases |steps|
  {
    if steps == [] then w == end
    else CanStep(w, steps[0]) && Reaches(Next(w, steps[0]), steps[1..], end)
  }

  function Start(n: nat): World { World(seq(n, _ => Empty), 0) }

  // ---------------------------------------------------------------- what every step keeps

  /** Everything accepted, in order: what left the queue, then what is in it. */
  function Accepted(l: Lane): seq<Item> { Items(l.removed) + l.items }

  function Fates(l: Lane): multiset<Item> {
    multiset(l.refused) + multiset(Accepted(l)) + multiset(l.pushing)
  }

  ghost predicate Limits(l: Lane) {
    && |l.items| <= MAX
    && Bytes(l.items) <= FLOW
    && |l.pushing| <= 1
    && (l.pushing != [] ==> !l.closed && |l.items| < MAX)
    && (l.closed ==> l.items == [])
  }

  /** A queue with packets has its token set, or a consumer that will look at it. */
  ghost predicate Awake(l: Lane) { l.items != [] ==> l.ready || l.consumers > 0 }

  /** `a` is `b` with some elements left out. */
  ghost predicate InOrder(a: seq<Item>, b: seq<Item>)
    decreases |b|
  {
    || a == []
    || (b != [] && (InOrder(a, b[..|b| - 1]) || (a[|a| - 1] == b[|b| - 1] && InOrder(a[..|a| - 1], b[..|b| - 1]))))
  }

  lemma InOrderMore(a: seq<Item>, b: seq<Item>, x: Item)
    requires InOrder(a, b)
    ensures InOrder(a, b + [x]) && InOrder(a + [x], b + [x])
  {
    assert (b + [x])[..|b|] == b && (a + [x])[..|a|] == a;
  }

  lemma {:induction false} InOrderLess(a: seq<Item>, x: Item, b: seq<Item>)
    requires InOrder(a + [x], b)
    ensures InOrder(a, b)
    decreases |b|
  {
    var front := b[..|b| - 1];
    assert (a + [x])[..|a|] == a;
    if InOrder(a + [x], front) {
      InOrderLess(a, x, front);
    }
  }

  /** Packets are queued in the order in which they were offered. */
  ghost predicate Ordered(l: Lane) { InOrder(Accepted(l) + l.pushing, l.offered) }

  ghost predicate LaneInv(l: Lane) { Limits(l) && Awake(l) && Ordered(l) && Fates(l) == multiset(l.offered) }

  lemma {:induction false} BytesConcat(a: seq<Item>, b: seq<Item>)
    ensures Bytes(a + b) == Bytes(a) + Bytes(b)
  {
    if a == [] {
      assert a + b == b;
    } else {
      BytesConcat(a[1..], b);
      assert (a + b)[1..] == a[1..] + b;
    }
  }

  lemma BytesSplit(items: seq<Item>, n: nat)
    requires n <= |items|
    ensures Bytes(items) == Bytes(items[..n]) + Bytes(items[n..])
  {
    assert items[..n] + items[n..] == items;
    BytesConcat(items[..n], items[n..]);
  }

  lemma ItemsMore(removed: seq<Removal>, more: seq<Removal>)
    ensures Items(removed + more) == Items(removed) + Items(more)
  {
  }

  /** Moving the first `n` packets to the removed ones changes neither the order nor the fates. */
  lemma RemoveKeeps(l: Lane, n: nat, r: seq<Removal>, l': Lane)
    requires n <= |l.items| && |r| == n && forall i | 0 <= i < n :: r[i].item == l.items[i]
    requires l'.items == l.items[n..] && l'.removed == l.removed + r
    ensures Accepted(l') == Accepted(l)
    ensures Bytes(l'.items) <= Bytes(l.items)
  {
    BytesSplit(l.items, n);
    ItemsMore(l.removed, r);
    assert Items(r) == l.items[..n];
    assert l.items[..n] + l.items[n..] == l.items;
    assert Accepted(l') == Items(l.removed) + (l.items[..n] + l.items[n..]);
  }

  /** Settling the last packet offered keeps the order, placed or refused. */
  lemma SettleOrdered(l: Lane, item: Item, used: nat)
    requires InOrder(Accepted(l) + [item], l.offered)
    ensures Ordered(Settle(l, item, used))
    ensures Accepted(Settle(l, item, used)) == Accepted(l) || Accepted(Settle(l, item, used)) == Accepted(l) + [item]
  {
    InOrderLess(Accepted(l), item, l.offered);
    var l' := Settle(l, item, used);
    assert Accepted(l) + [] == Accepted(l);
    if l'.items != l.items {
      assert Accepted(l') == Accepted(l) + [item] && Accepted(l') + [] == Accepted(l');
    }
  }

  lemma SettleKeeps(l: Lane, item: Item, used: nat)
    requires Limits(l) && Awake(l) && !l.closed && |l.items| < MAX && used <= GLOBAL
    requires InOrder(Accepted(l) + [item], l.offered)
    requires multiset(l.offered) == multiset(l.refused) + multiset(Accepted(l)) + multiset{item}
    ensures var l' := Settle(l, item, used);
      && LaneInv(l') && Charge(l, l', used) <= GLOBAL
      && (Accepted(l') == Accepted(l) || Accepted(l') == Accepted(l) + [item]) && l'.removed == l.removed
  {
    BytesConcat(l.items, [item]);
    assert Bytes([item]) == item.size;
    SettleOrdered(l, item, used);
  }

  lemma RefuseKeeps(l: Lane, item: Item)
    requires LaneInv(l) && l.pushing == []
    ensures LaneInv(Refuse(l.(offered := l.offered + [item]), item))
    ensures Accepted(Refuse(l.(offered := l.offered + [item]), item)) == Accepted(l)
  {
    var l' := Refuse(l.(offered := l.offered + [item]), item);
    assert Accepted(l') == Accepted(l) && Accepted(l) + [] == Accepted(l);
    assert Limits(l') && Awake(l');
    InOrderMore(Accepted(l), l.offered, item);
    assert Fates(l') == Fates(l) + multiset{item} && multiset(l'.offered) == multiset(l.offered) + multiset{item};
  }

  /** The oldest packet is stale: it is dropped, and the new one is still to be placed. */
  lemma EvictKeeps(l: Lane, item: Item, l': Lane)
    requires LaneInv(l) && l.pushing == [] && !l.closed && l.items != []
    requires l' == l.(offered := l.offered + [item], items := l.items[1..],
                      removed := l.removed + [Removal(l.items[0], false)], pushing := [item])
    ensures LaneInv(l') && Accepted(l') == Accepted(l) && Bytes(l'.items) <= Bytes(l.items)
  {
    assert Accepted(l) + [] == Accepted(l);
    InOrderMore(Accepted(l), l.offered, item);
    RemoveKeeps(l, 1, [Removal(l.items[0], false)], l');
  }

  lemma PushKeeps(l: Lane, item: Item, now: int, used: nat)
    requires LaneInv(l) && l.pushing == [] && used <= GLOBAL
    ensures var l' := Push(l, item, now, used);
      && LaneInv(l') && Charge(l, l', used) <= GLOBAL && l.removed <= l'.removed
      && (Accepted(l') == Accepted(l) || Accepted(l') == Accepted(l) + [item])
  {
    if l.closed || (|l.items| >= MAX && Young(l.items[0], now)) {
      RefuseKeeps(l, item);
    } else if |l.items| >= MAX {
      EvictKeeps(l, item, Push(l, item, now, used));
    } else {
      assert Accepted(l) + [] == Accepted(l);
      InOrderMore(Accepted(l), l.offered, item);
      SettleKeeps(l.(offered := l.offered + [item]), item, used);
    }
  }

  lemma TakeKeeps(l: Lane, max: nat, now: int)
    requires LaneInv(l) && 0 < max
    ensures var l' := Take(l, max, now);
      LaneInv(l') && Bytes(l'.items) <= Bytes(l.items) && l.removed <= l'.removed && Accepted(l') == Accepted(l)
  {
    if l.items != [] {
      var n := if |l.items| > max then max else |l.items|;
      RemoveKeeps(l, n, Removals(l.items, n, now), Take(l, max, now));
    }
  }

  lemma CloseKeeps(l: Lane)
    requires LaneInv(l) && l.pushing == []
    ensures LaneInv(Close(l)) && Bytes(Close(l).items) <= Bytes(l.items)
    ensures l.removed <= Close(l).removed && Accepted(Close(l)) == Accepted(l)
  {
    var n := |l.items|;
    assert l.items[n..] == [];
    RemoveKeeps(l, n, seq(n, i requires 0 <= i < n => Removal(l.items[i], false)), Close(l));
  }

  /** First in, first out: what has left only grows at its end, and so does what was accepted. */
  ghost predicate Extends(before: Lane, after: Lane) {
    before.removed <= after.removed && Accepted(before) <= Accepted(after)
  }

  /** One step keeps the lane's invariant and the budget's limit, removes only from the front and adds
      only at the back. */
  lemma ApplyKeeps(l: Lane, e: Event, used: nat)
    requires LaneInv(l) && Enabled(l, e) && used <= GLOBAL
    ensures var l' := Apply(l, e, used);
      LaneInv(l') && Charge(l, l', used) <= GLOBAL && Extends(l, l')
  {
    match e
    case Offer(item, now) => PushKeeps(l, item, now, used);
    case Finish =>
      assert l.pushing == [l.pushing[0]];
      SettleKeeps(l, l.pushing[0], used);
    case Turn(max, now) => TakeKeeps(l, max, now);
    case Shut => CloseKeeps(l);
    case Wake =>
    case Enter =>
  }

  function Total(lanes: seq<Lane>): nat {
    if lanes == [] then 0 else Bytes(lanes[0].items) + Total(lanes[1..])
  }

  lemma {:induction false} TotalUpdate(lanes: seq<Lane>, i: nat, l: Lane)
    requires i < |lanes|
    ensures Total(lanes[i := l]) == Total(lanes) - Bytes(lanes[i].items) + Bytes(l.items)
  {
    if i == 0 {
      assert lanes[i := l][1..] == lanes[1..];
    } else {
      TotalUpdate(lanes[1..], i - 1, l);
      assert lanes[i := l][1..] == lanes[1..][i - 1 := l];
    }
  }

  ghost predicate Inv(w: World) {
    && w.used == Total(w.lanes)
    && w.used <= GLOBAL
    && forall i | 0 <= i < |w.lanes| :: LaneInv(w.lanes[i])
  }

  lemma NextKeeps(w: World, s: Step)
    requires Inv(w) && CanStep(w, s)
    ensures Inv(Next(w, s))
  {
    var l := w.lanes[s.lane];
    ApplyKeeps(l, s.event, w.used);
    TotalUpdate(w.lanes, s.lane, Apply(l, s.event, w.used));
  }

  lemma NextExtends(w: World, s: Step, i: nat)
    requires Inv(w) && CanStep(w, s) && i < |w.lanes|
    ensures Extends(w.lanes[i], Next(w, s).lanes[i])
  {
    ApplyKeeps(w.lanes[s.lane], s.event, w.used);
    OthersStay(w.lanes, s.lane, Apply(w.lanes[s.lane], s.event, w.used), i);
  }

  lemma OthersStay(lanes: seq<Lane>, k: nat, after: Lane, i: nat)
    requires k < |lanes| && i < |lanes| && Extends(lanes[k], after)
    ensures Extends(lanes[i], lanes[k := after][i])
  {
  }

  /** Over every run of any number of queues, from any state that satisfies the invariant. */
  lemma {:induction false} RunKeeps(w: World, steps: seq<Step>, end: World)
    requires Inv(w) && Reaches(w, steps, end)
    ensures Inv(end) && |end.lanes| == |w.lanes|
    ensures forall i | 0 <= i < |w.lanes| :: Extends(w.lanes[i], end.lanes[i])
    decreases |steps|
  {
    if steps != [] {
      var next := Next(w, steps[0]);
      NextKeeps(w, steps[0]);
      RunKeeps(next, steps[1..], end);
      forall i | 0 <= i < |w.lanes| ensures Extends(w.lanes[i], end.lanes[i]) {
        NextExtends(w, steps[0], i);
        assert Extends(next.lanes[i], end.lanes[i]);
      }
    }
  }

  lemma {:induction false} StartInv(n: nat)
    ensures Inv(Start(n))
  {
    TotalEmpty(n);
  }

  lemma {:induction false} TotalEmpty(n: nat)
    ensures Total(seq(n, _ => Empty)) == 0
  {
    if n > 0 {
      TotalEmpty(n - 1);
      assert seq(n, _ => Empty)[1..] == seq(n - 1, _ => Empty);
    }
  }

  ghost predicate Reachable(w: World) { exists n: nat, steps :: Reaches(Start(n), steps, w) }

  lemma ReachableInv(w: World)
    requires Reachable(w)
    ensures Inv(w)
  {
    var n: nat, steps :| Reaches(Start(n), steps, w);
    StartInv(n);
    RunKeeps(Start(n), steps, w);
  }

  /** Every packet offered to a queue has exactly one fate, its limits hold, the budget is exactly what
      is queued, and no queue with packets sleeps. */
  lemma QueuesAreSound(w: World, i: nat)
    requires Reachable(w) && i < |w.lanes|
    ensures w.used == Total(w.lanes) <= GLOBAL
    ensures InOrder(Accepted(w.lanes[i]) + w.lanes[i].pushing, w.lanes[i].offered)
    ensures var l := w.lanes[i];
      && multiset(l.offered) ==
           multiset(l.refused) + multiset(Items(l.removed)) + multiset(l.items) + multiset(l.pushing)
      && |l.items| <= MAX && Bytes(l.items) <= FLOW
      && (l.items != [] ==> l.ready || l.consumers > 0)
  {
    ReachableInv(w);
  }

  // ---------------------------------------------------------------- which packets are served

  /** A consumer's turn takes the first packets and delivers exactly those that are at most 3 s old then. */
  lemma TurnDelivers(l: Lane, max: nat, now: int, used: nat)
    requires Enabled(l, Turn(max, now))
    ensures var l', k := Apply(l, Turn(max, now), used), if |l.items| > max then max else |l.items|;
      && l'.items == l.items[k..] && |l'.removed| == |l.removed| + k && l.removed <= l'.removed
      && (forall i | 0 <= i < k :: l'.removed[|l.removed| + i]
            == Removal(l.items[i], now - l.items[i].added <= 3_000_000_000))
      && l'.refused == l.refused && l'.closed == l.closed
  {
  }

  /** It is the consumer's last if it delivers one or finds nothing. */
  lemma TurnEnds(l: Lane, max: nat, now: int, used: nat)
    requires Enabled(l, Turn(max, now))
    ensures var l', k := Apply(l, Turn(max, now), used), if |l.items| > max then max else |l.items|;
      l'.consumers == l.consumers - 1
      <==> l.items == [] || exists i :: 0 <= i < k && now - l.items[i].added <= 3_000_000_000
  {
    if l.items != [] {
      var k := if |l.items| > max then max else |l.items|;
      var r := Removals(l.items, k, now);
      assert forall i | 0 <= i < k :: r[i].delivered <==> now - l.items[i].added <= 3_000_000_000;
    }
  }

  /** An open queue with fewer than 8192 packets takes an offered packet exactly when both byte limits
      allow it; a full one drops its oldest packet if that is older than 3 s, and else the new one. */
  lemma OfferDecides(l: Lane, item: Item, now: int, used: nat)
    requires l.pushing == []
    ensures var l' := Apply(l, Offer(item, now), used);
      if l.closed then l'.refused == l.refused + [item] && l'.items == l.items
      else if |l.items| >= 8192 then
        if now - l.items[0].added > 3_000_000_000
        then l'.items == l.items[1..] && l'.removed == l.removed + [Removal(l.items[0], false)] && l'.pushing == [item]
        else l'.items == l.items && l'.refused == l.refused + [item] && l'.pushing == []
      else if Bytes(l.items) + item.size <= 12_582_912 && used + item.size <= 67_108_864
      then l'.items == l.items + [item] && l'.refused == l.refused && l'.ready
      else l'.items == l.items && l'.refused == l.refused + [item]
  {
  }

  /** So does a packet that was waiting for its place. */
  lemma FinishDecides(l: Lane, used: nat)
    requires |l.pushing| == 1
    ensures var l', item := Apply(l, Finish, used), l.pushing[0];
      l'.pushing == [] &&
      if Bytes(l.items) + item.size <= 12_582_912 && used + item.size <= 67_108_864
      then l'.items == l.items + [item] && l'.refused == l.refused && l'.ready
      else l'.items == l.items && l'.refused == l.refused + [item]
  {
  }
}
