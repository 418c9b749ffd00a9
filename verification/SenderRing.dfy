/** chitandaPacketQueue as it runs: a ring that wraps, doubles when full, goes back to its initial size
    when it empties, and a byte budget shared with other queues.  Each locked section is proved to do
    what the reference of `SenderQueue` does on the sequence of queued packets. */
module SenderRing {
  import opened SenderQueue
  import opened Rings

  const Blank := Item(0, 0, 0)

  class Budget {
    var used: int
    constructor () ensures used == 0 { used := 0; }

    method Reserve(size: nat) returns (ok: bool)
      modifies this
      ensures ok == (size <= GLOBAL - old(used)) && used == if ok then old(used) + size else old(used)
    {
      ok := size <= GLOBAL - used;
      if ok {
        used := used + size;
      }
    }

    method Release(size: nat)
      modifies this
      ensures used == old(used) - size
    {
      used := used - size;
    }
  }

  class PacketQueue {
    const budget: Budget
    var items: array<Item>
    var head: nat
    var length: nat
    var bytes: int
    var closed: bool
    var ready: bool

    ghost predicate Shaped()
      reads this, items
    {
      && length <= items.Length <= MAX
      && (closed ==> length == 0)
      && (!closed ==> INITIAL <= items.Length && head < items.Length)
    }

    ghost function Contents(): (s: seq<Item>)
      reads this, items
      requires Shaped()
      ensures |s| == length
    {
      if closed then [] else Ring(items[..], head, length)
    }

    ghost predicate Valid()
      reads this, items
    {
      Shaped() && bytes == Bytes(Contents())
    }

    constructor (budget: Budget)
      ensures Valid() && Contents() == [] && !closed && !ready && this.budget == budget && fresh(items)
    {
      this.budget := budget;
      items := new Item[INITIAL](_ => Blank);
      head, length, bytes, closed, ready := 0, 0, 0, false, false;
    }

    /** Clears the oldest slot and moves the head past it. */
    method Unlink() returns (item: Item)
      requires Shaped() && length > 0
      modifies this`head, this`length, items
      ensures Shaped() && item == old(Contents())[0] && Contents() == old(Contents())[1..]
    {
      RingPop(items[..], head, length, Blank);
      item := items[head];
      items[head] := Blank;
      assert items[..] == old(items[..])[head := Blank];
      head := Wrapped(head, 1, items.Length);
      length := length - 1;
    }

    /** Removes the oldest packet. */
    method PopHead() returns (item: Item)
      requires Valid() && length > 0
      modifies this`head, this`length, this`bytes, items, budget
      ensures Valid() && item == old(Contents())[0] && Contents() == old(Contents())[1..]
      ensures budget.used == old(budget.used) - item.size
    {
      item := Unlink();
      bytes := bytes - item.size;
      budget.Release(item.size);
    }

    /** Moves the packets to a ring twice as large. */
    method Grow()
      requires Valid() && !closed && length == items.Length < MAX
      modifies this`items, this`head
      ensures Valid() && Contents() == old(Contents()) && fresh(items) && length < items.Length
    {
      var capacity := items.Length * 2;
      if capacity > MAX {
        capacity := MAX;
      }
      var grown := new Item[capacity](_ => Blank);
      CopyTo(grown);
      RingMoved(items[..], head, length, grown[..]);
      items, head := grown, 0;
    }

    method CopyTo(grown: array<Item>)
      requires Shaped() && !closed && length <= grown.Length && grown != items
      modifies grown
      ensures forall k | 0 <= k < length :: grown[k] == Ring(items[..], head, length)[k]
    {
      ghost var ring := Ring(items[..], head, length);
      for i := 0 to length
        invariant items[..] == old(items[..])
        invariant forall k | 0 <= k < i :: grown[k] == ring[k]
      {
        var at := Wrapped(head, i, items.Length);
        grown[i] := items[at];
      }
    }

    /** Puts a packet at the back. */
    method Append(item: Item)
      requires Valid() && !closed && length < MAX
      modifies this`items, this`head, this`length, this`bytes, this`ready, items
      ensures Valid() && Contents() == old(Contents()) + [item] && ready && (items == old(items) || fresh(items))
    {
      if length == items.Length {
        Grow();
      }
      Place(item);
    }

    /** Writes the slot behind the last packet. */
    method Link(item: Item)
      requires Shaped() && !closed && length < items.Length
      modifies this`length, items
      ensures Shaped() && Contents() == old(Contents()) + [item]
    {
      RingPush(items[..], head, length, item);
      var at := Wrapped(head, length, items.Length);
      items[at] := item;
      assert items[..] == old(items[..])[at := item];
      length := length + 1;
    }

    method Place(item: Item)
      requires Valid() && !closed && length < items.Length
      modifies this`length, this`bytes, this`ready, items
      ensures Valid() && Contents() == old(Contents()) + [item] && ready
    {
      BytesConcat(Contents(), [item]);
      Link(item);
      bytes := bytes + item.size;
      ready := true;
    }

    /** The abstract queue, given the history kept beside it. */
    ghost function View(l: Lane): Lane
      reads this, items
      requires Shaped()
    {
      l.(items := Contents(), closed := closed, ready := ready)
    }

    /** The first locked part of a push; `pending` tells that a stale packet was evicted and the packet
        is still to be placed. */
    method PushStart(item: Item, now: int, ghost l: Lane) returns (dropped: seq<Item>, pending: bool)
      requires Valid() && 0 <= budget.used && l == View(l) && l.pushing == []
      modifies this, items, budget
      ensures Valid() && (items == old(items) || fresh(items))
      ensures var l' := Push(l, item, now, old(budget.used));
        && l' == View(l')
        && budget.used == Charge(l, l', old(budget.used))
        && pending == (l'.pushing != [])
        && dropped == l'.refused[|l.refused|..] + Items(l'.removed[|l.removed|..])
      // a full queue drops its oldest packet if that is older than 3 s, and else the new one
      ensures old(closed) ==> dropped == [item] && !pending && Contents() == old(Contents())
      ensures !old(closed) && old(length) == 8192 ==>
        if now - old(Contents())[0].added > 3_000_000_000
        then pending && dropped == [old(Contents())[0]] && Contents() == old(Contents())[1..]
        else !pending && dropped == [item] && Contents() == old(Contents())
      // another takes the new one if both byte limits allow it
      ensures !old(closed) && old(length) < 8192 ==> !pending
      ensures !old(closed) && old(length) < 8192 ==>
        if old(bytes) + item.size <= 12_582_912 && old(budget.used) + item.size <= 67_108_864
        then dropped == [] && Contents() == old(Contents()) + [item]
        else dropped == [item] && Contents() == old(Contents())
    {
      dropped, pending := [], false;
      if closed {
        return [item], false;
      }
      if length == MAX {
        if now - items[head].added <= MAX_AGE {
          return [item], false;
        }
        var oldest := PopHead();
        return [oldest], true;
      }
      dropped := PushFinish(item, l);
    }

    /** Reserves and places the packet, or refuses it. */
    method PushFinish(item: Item, ghost l: Lane) returns (dropped: seq<Item>)
      requires Valid() && !closed && length < MAX && 0 <= budget.used && l == View(l)
      modifies this, items, budget
      ensures Valid() && (items == old(items) || fresh(items))
      ensures var l' := Settle(l, item, old(budget.used));
        && l' == View(l')
        && budget.used == Charge(l, l', old(budget.used))
        && dropped == l'.refused[|l.refused|..]
      ensures if old(bytes) + item.size <= 12_582_912 && old(budget.used) + item.size <= 67_108_864
        then dropped == [] && Contents() == old(Contents()) + [item]
        else dropped == [item] && Contents() == old(Contents())
    {
      dropped := [item];
      if item.size <= FLOW - bytes {
        var ok := budget.Reserve(item.size);
        if ok {
          BytesConcat(Contents(), [item]);
          Append(item);
          dropped := [];
        }
      }
    }

    /** Goes back to a small ring when the queue has emptied, and leaves a token otherwise. */
    method AfterTaking()
      requires Valid() && !closed
      modifies this`ready, this`items, this`head
      ensures Valid() && Contents() == old(Contents()) && (items == old(items) || fresh(items))
      ensures ready == (old(ready) || length > 0)
    {
      if length > 0 {
        ready := true;
      } else if items.Length > INITIAL {
        items := new Item[INITIAL](_ => Blank);
        head := 0;
      }
    }

    /** The locked part of a pop of up to `max` packets. */
    method TakeBatch(max: nat, now: int, ghost l: Lane) returns (batch: seq<Item>, expired: seq<Item>)
      requires Valid() && l == View(l) && 0 < max && l.consumers > 0
      modifies this, items, budget
      ensures Valid() && (items == old(items) || fresh(items))
      ensures var l' := Take(l, max, now);
        && View(l') == l'
        && budget.used == Charge(l, l', old(budget.used))
        && batch == Sifted(l'.removed[|l.removed|..], true)
        && expired == Sifted(l'.removed[|l.removed|..], false)
      // of the first packets, those at most 3 s old are returned, in order, and the others dropped
      ensures var taken := old(Contents())[..if old(length) > max then max else old(length)];
        && batch == Aged3s(taken, now, false) && expired == Aged3s(taken, now, true)
        && Contents() == old(Contents())[|taken|..]
    {
      batch, expired := [], [];
      if length == 0 {
        return;
      }
      var n := if length > max then max else length;
      batch, expired := TakeSome(n, now);
      AfterTaking();
      TakeLane(l, max, now, n);
    }

    method TakeSome(n: nat, now: int) returns (batch: seq<Item>, expired: seq<Item>)
      requires Valid() && n <= length
      modifies this`head, this`length, this`bytes, items, budget
      ensures Valid() && Contents() == old(Contents())[n..]
      ensures budget.used == old(budget.used) - Bytes(old(Contents())[..n])
      ensures batch == Sifted(Removals(old(Contents()), n, now), true)
      ensures expired == Sifted(Removals(old(Contents()), n, now), false)
      ensures batch == Aged3s(old(Contents())[..n], now, false) && expired == Aged3s(old(Contents())[..n], now, true)
    {
      batch, expired := [], [];
      ghost var all := Contents();
      for i := 0 to n
        invariant Valid() && Contents() == all[i..]
        invariant budget.used == old(budget.used) - Bytes(all[..i])
        invariant batch == Sifted(Removals(all, i, now), true)
        invariant expired == Sifted(Removals(all, i, now), false)
      {
        var item := PopHead();
        TakenOne(all, i, now);
        if now - item.added <= MAX_AGE {
          batch := batch + [item];
        } else {
          expired := expired + [item];
        }
      }
      SiftedByAge(all, n, now);
    }

    method Close(ghost l: Lane) returns (dropped: seq<Item>)
      requires Valid() && l == View(l)
      modifies this, items, budget
      ensures Valid() && View(SenderQueue.Close(l)) == SenderQueue.Close(l)
      ensures dropped == old(Contents())
      ensures budget.used == Charge(l, SenderQueue.Close(l), old(budget.used))
    {
      dropped := Drain();
      closed := true;
      items := new Item[0];
    }

    method Drain() returns (dropped: seq<Item>)
      requires Valid()
      modifies this`head, this`length, this`bytes, items, budget
      ensures Valid() && length == 0
      ensures dropped == old(Contents()) && budget.used == old(budget.used) - Bytes(old(Contents()))
    {
      dropped := [];
      ghost var all, n := Contents(), 0;
      while length > 0
        invariant Valid() && n <= |all| && Contents() == all[n..]
        invariant budget.used == old(budget.used) - Bytes(all[..n])
        invariant dropped == all[..n]
        decreases length
      {
        var item := PopHead();
        TakenOne(all, n, 0);
        dropped := dropped + [item];
        n := n + 1;
      }
      assert all[..n] == all;
    }
  }

  /** In order, the packets that are, or are not, more than 3 s old. */
  function Aged3s(items: seq<Item>, now: int, aged: bool): seq<Item> {
    if items == [] then []
    else
      var front, last := Aged3s(items[..|items| - 1], now, aged), items[|items| - 1];
      if (now - last.added > 3_000_000_000) == aged then front + [last] else front
  }

  lemma {:induction false} SiftedByAge(items: seq<Item>, n: nat, now: int)
    requires n <= |items|
    ensures Sifted(Removals(items, n, now), true) == Aged3s(items[..n], now, false)
    ensures Sifted(Removals(items, n, now), false) == Aged3s(items[..n], now, true)
  {
    if n > 0 {
      SiftedByAge(items, n - 1, now);
      assert Removals(items, n, now)[..n - 1] == Removals(items, n - 1, now);
      assert items[..n][..n - 1] == items[..n - 1];
    }
  }

  /** The removals that were, or were not, delivered. */
  function Sifted(r: seq<Removal>, delivered: bool): seq<Item> {
    if r == [] then []
    else
      var front, last := Sifted(r[..|r| - 1], delivered), r[|r| - 1];
      if last.delivered == delivered then front + [last.item] else front
  }

  lemma TakeLane(l: Lane, max: nat, now: int, n: nat)
    requires 0 < max && l.items != [] && n == if |l.items| > max then max else |l.items|
    ensures var l' := Take(l, max, now);
      && l'.items == l.items[n..] && l'.closed == l.closed && l'.ready == (l.ready || |l'.items| > 0)
      && l'.removed[|l.removed|..] == Removals(l.items, n, now)
      && forall used :: Charge(l, l', used) == used - Bytes(l.items[..n])
  {
    BytesSplit(l.items, n);
  }

  function Kept(item: Item, now: int, delivered: bool): seq<Item> {
    if Young(item, now) == delivered then [item] else []
  }

  lemma TakenOne(all: seq<Item>, i: nat, now: int)
    requires i < |all|
    ensures all[i..][1..] == all[i + 1..] && all[i..][0] == all[i]
    ensures Bytes(all[..i + 1]) == Bytes(all[..i]) + all[i].size
    ensures all[..i + 1] == all[..i] + [all[i]]
    ensures Removals(all, i + 1, now) == Removals(all, i, now) + [Removal(all[i], Young(all[i], now))]
    ensures forall d :: Sifted(Removals(all, i + 1, now), d) == Sifted(Removals(all, i, now), d) + Kept(all[i], now, d)
  {
    assert all[..i + 1] == all[..i] + [all[i]];
    BytesConcat(all[..i], [all[i]]);
    var before, after := Removals(all, i, now), Removals(all, i + 1, now);
    assert after[..|after| - 1] == before;
  }
}
