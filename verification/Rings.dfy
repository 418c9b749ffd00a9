/** Circular buffers: the sequence a ring stands for, and what pushing, popping and moving do to it. */
module Rings {

  /** Ring position `i` places after `head`. */
  function Slot(head: nat, i: nat, size: nat): (r: nat)
    requires head < size && i <= size
    ensures r < size
  {
    if head + i < size then head + i else head + i - size
  }

  method Wrapped(head: nat, i: nat, size: nat) returns (r: nat)
    requires head < size && i <= size
    ensures r == Slot(head, i, size)
  {
    r := (head + i) % size;
    if head + i < size {
      ModuloBelow(head + i, size);
    } else {
      ModuloOnce(head + i, size);
    }
  }

  lemma ModuloBelow(x: nat, n: nat)
    requires x < n
    ensures x % n == x
  {
  }

  lemma ModuloOnce(x: nat, n: nat)
    requires 0 < n <= x < 2 * n
    ensures x % n == x - n
  {
    assert x / n == 1;
  }

  /** The elements of a ring, oldest first. */
  function Ring<T>(a: seq<T>, head: nat, length: nat): (s: seq<T>)
    requires head < |a| && length <= |a|
    ensures |s| == length
  {
    seq(length, i requires 0 <= i < length => a[Slot(head, i, |a|)])
  }

  lemma RingPop<T>(a: seq<T>, head: nat, length: nat, blank: T)
    requires head < |a| && 0 < length <= |a|
    ensures Ring(a, head, length)[0] == a[head]
    ensures Ring(a[head := blank], Slot(head, 1, |a|), length - 1) == Ring(a, head, length)[1..]
  {
    var before, after := Ring(a, head, length), Ring(a[head := blank], Slot(head, 1, |a|), length - 1);
    forall i | 0 <= i < length - 1 ensures after[i] == before[1..][i] {
      assert Slot(Slot(head, 1, |a|), i, |a|) == Slot(head, i + 1, |a|) != head;
    }
  }

  lemma RingPush<T>(a: seq<T>, head: nat, length: nat, item: T)
    requires head < |a| && length < |a|
    ensures Ring(a[Slot(head, length, |a|) := item], head, length + 1) == Ring(a, head, length) + [item]
  {
    var before, after := Ring(a, head, length), Ring(a[Slot(head, length, |a|) := item], head, length + 1);
    forall i | 0 <= i < length ensures after[i] == before[i] {
      assert Slot(head, i, |a|) != Slot(head, length, |a|);
    }
  }

  lemma RingMoved<T>(a: seq<T>, head: nat, length: nat, b: seq<T>)
    requires head < |a| && length <= |a| && length <= |b| && b != []
    requires forall k | 0 <= k < length :: b[k] == Ring(a, head, length)[k]
    ensures Ring(b, 0, length) == Ring(a, head, length)
  {
  }

  /** Taking `k` elements that do not wrap. */
  lemma RingTake<T>(a: seq<T>, head: nat, length: nat, k: nat)
    requires head < |a| && k <= length <= |a| && head + k <= |a|
    ensures Ring(a, head, length)[..k] == a[head..head + k]
    ensures Ring(a, Slot(head, k, |a|), length - k) == Ring(a, head, length)[k..]
  {
    var before, after := Ring(a, head, length), Ring(a, Slot(head, k, |a|), length - k);
    forall i | 0 <= i < length - k ensures after[i] == before[k..][i] {
      assert Slot(Slot(head, k, |a|), i, |a|) == Slot(head, k + i, |a|);
    }
  }

  /** `b` is `a` with `part` written at `at`. */
  ghost predicate Overwrites<T(!new)>(a: seq<T>, b: seq<T>, at: nat, part: seq<T>) {
    && |b| == |a|
    && at + |part| <= |a|
    && (forall k | 0 <= k < |part| :: b[at + k] == part[k])
    && (forall k | 0 <= k < |a| && !(at <= k < at + |part|) :: b[k] == a[k])
  }

  /** Putting elements that do not wrap. */
  lemma RingPut<T(!new)>(a: seq<T>, b: seq<T>, head: nat, length: nat, part: seq<T>)
    requires head < |a| && length + |part| <= |a|
    requires Overwrites(a, b, Slot(head, length, |a|), part)
    ensures Ring(b, head, length + |part|) == Ring(a, head, length) + part
  {
    var before, after := Ring(a, head, length), Ring(b, head, length + |part|);
    var tail := Slot(head, length, |a|);
    forall i | 0 <= i < length + |part| ensures after[i] == (before + part)[i] {
      var s := Slot(head, i, |a|);
      if i < length {
        assert !(tail <= s < tail + |part|);
      } else {
        assert s == tail + (i - length);
      }
    }
  }

  /** A ring is at most two runs of its buffer. */
  lemma RingRuns<T>(a: seq<T>, head: nat, length: nat)
    requires head < |a| && length <= |a|
    ensures var first := if length < |a| - head then length else |a| - head;
      Ring(a, head, length) == a[head..head + first] + a[..length - first]
  {
  }
}
