/** Byte strings. */
module Octets {

  type byte = b: int | 0 <= b < 256
  type Bytes = seq<byte>

  lemma Assoc(a: Bytes, b: Bytes, c: Bytes)
    ensures (a + b) + c == a + (b + c)
  {
  }

  lemma Cancel(a: Bytes, b: Bytes, x: Bytes, y: Bytes)
    requires a + x == b + y && |a| == |b|
    ensures a == b && x == y
  {
    assert a == (a + x)[..|a|] && b == (b + y)[..|a|];
    assert x == (a + x)[|a|..] && y == (b + y)[|a|..];
  }

  function Min(a: int, b: int): int { if a < b then a else b }

  /** The parts one after the other. */
  function Flat(parts: seq<Bytes>): Bytes {
    if parts == [] then [] else parts[0] + Flat(parts[1..])
  }

  lemma {:induction false} FlatConcat(parts: seq<Bytes>, more: seq<Bytes>)
    ensures Flat(parts + more) == Flat(parts) + Flat(more)
  {
    if parts == [] {
      assert parts + more == more;
    } else {
      FlatConcat(parts[1..], more);
      assert (parts + more)[1..] == parts[1..] + more;
      Assoc(parts[0], Flat(parts[1..]), Flat(more));
    }
  }

  lemma FlatPush(parts: seq<Bytes>, part: Bytes)
    ensures Flat(parts + [part]) == Flat(parts) + part
  {
    FlatConcat(parts, [part]);
    assert Flat([part]) == part + Flat([]);
  }

  lemma {:induction false} FlatPrefix(parts: seq<Bytes>, k: nat)
    requires k <= |parts|
    ensures Flat(parts[..k]) <= Flat(parts)
  {
    assert parts[..k] + parts[k..] == parts;
    FlatConcat(parts[..k], parts[k..]);
  }
}
