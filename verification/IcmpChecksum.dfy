/** The Internet checksum of internal/icmpmsg/icmp.go and its rewriting when an echo token is replaced.

    `Verifies` is the receiver's test of RFC 1071 stated on the plain sum of 16-bit words: the sum is
    positive and a multiple of 65535.  The folding loops, the complement and the incremental update of
    section 3 of RFC 1624 are proved against it. */
module IcmpChecksum {
  import opened Octets

  const ONES := 0xFFFF

  type word = n: nat | n <= 0xFFFF

  /** A byte in the high half of a word.  Defined by counting, which keeps the product out of every proof
      that does not need it. */
  function Shifted(high: nat): nat { if high == 0 then 0 else Shifted(high - 1) + 256 }

  lemma {:induction false} ShiftedIsProduct(high: nat)
    ensures Shifted(high) == high * 256
  {
    if high > 0 {
      ShiftedIsProduct(high - 1);
    }
  }

  function Word(high: byte, low: byte): (n: word)
  {
    ShiftedIsProduct(high);
    Shifted(high) + low
  }

  /** Every word has exactly one high and one low byte. */
  lemma WordOfBytes(n: word)
    ensures Word(n / 256, n % 256) == n
    ensures forall h: byte, l: byte | Word(h, l) == n :: h == n / 256 && l == n % 256
  {
    ShiftedIsProduct(n / 256);
    forall h: byte, l: byte | Word(h, l) == n ensures h == n / 256 && l == n % 256 {
      ShiftedIsProduct(h);
    }
  }

  /** The sum of the big-endian words, an odd last byte counting as the high half of a word. */
  function Sum(b: Bytes): nat {
    if |b| == 0 then 0
    else if |b| == 1 then Word(b[0], 0)
    else Word(b[0], b[1]) + Sum(b[2..])
  }

  /** The number modulo 65535. */
  function Residue(n: nat): (r: nat)
    ensures r < ONES && r <= n
  {
    if n < ONES then n else Residue(n - ONES)
  }

  lemma {:induction false} ResidueIsRemainder(n: nat)
    ensures Residue(n) == n % ONES
  {
    if n >= ONES {
      ResidueIsRemainder(n - ONES);
    }
  }

  predicate Verifies(b: Bytes) { Sum(b) > 0 && Residue(Sum(b)) == 0 }

  // ---------------------------------------------------------------- folding

  function Fold(s: nat): nat { if s <= ONES then s else Fold(s / 0x1_0000 + s % 0x1_0000) }

  lemma {:induction false} FoldMeaning(s: nat)
    ensures Fold(s) <= ONES && Fold(s) <= s && Residue(Fold(s)) == Residue(s) && (Fold(s) == 0 <==> s == 0)
  {
    if s > ONES {
      var high, low := s / 0x1_0000, s % 0x1_0000;
      FoldMeaning(high + low);
      assert s == (high + low) + high * ONES;
      CongruentShift(high + low, high);
    }
  }

  lemma {:induction false} CongruentShift(x: nat, k: nat)
    ensures Residue(x + k * ONES) == Residue(x)
    decreases k
  {
    if k > 0 {
      CongruentShift(x, k - 1);
      assert x + k * ONES == (x + (k - 1) * ONES) + ONES;
    }
  }

  /** Adding the same on both sides neither makes nor breaks a congruence. */
  lemma {:induction false} SameShift(a: nat, x: nat, y: nat)
    ensures Residue(a + x) == Residue(a + y) <==> Residue(x) == Residue(y)
    decreases a + x + y
  {
    if x >= ONES {
      SameShift(a, x - ONES, y);
    } else if y >= ONES {
      SameShift(a, x, y - ONES);
    } else if a >= ONES {
      SameShift(a - ONES, x, y);
    }
  }

  /** The complement of the folded sum. */
  function ComplementOf(sum: nat): word {
    FoldMeaning(sum);
    ONES - Fold(sum)
  }

  /** What is sent. */
  function ChecksumOf(b: Bytes): word { ComplementOf(Sum(b)) }

  /** The checksum of a packet that carries its checksum is zero exactly when the packet verifies. */
  lemma ZeroIffVerifies(b: Bytes)
    ensures ChecksumOf(b) == 0 <==> Verifies(b)
  {
    FoldMeaning(Sum(b));
  }

  lemma {:induction false} SumBound(b: Bytes)
    ensures Sum(b) <= (|b| + 1) / 2 * ONES
  {
    if |b| >= 2 {
      SumBound(b[2..]);
      assert (|b| + 1) / 2 == (|b[2..]| + 1) / 2 + 1;
    }
  }

  lemma {:induction false} SumConcat(a: Bytes, b: Bytes)
    requires |a| % 2 == 0
    ensures Sum(a + b) == Sum(a) + Sum(b)
  {
    if a == [] {
      assert a + b == b;
    } else {
      SumConcat(a[2..], b);
      assert (a + b)[2..] == a[2..] + b;
    }
  }

  lemma SumSplit(b: Bytes, i: nat)
    requires i % 2 == 0 && i <= |b|
    ensures Sum(b) == Sum(b[..i]) + Sum(b[i..])
  {
    SumConcat(b[..i], b[i..]);
    assert b[..i] + b[i..] == b;
  }

  /** Largest length whose sum fits the 32-bit accumulator. */
  const MAX_LENGTH := 131074

  /** 32-bit addition wraps around. */
  function Add32(a: nat, b: nat): nat
    requires a < 0x1_0000_0000 && b < 0x1_0000_0000
  {
    if a + b < 0x1_0000_0000 then a + b else a + b - 0x1_0000_0000
  }

  method Checksum(b: Bytes) returns (c: word)
    requires |b| <= MAX_LENGTH
    ensures c == ChecksumOf(b)
  {
    var sum := AddWords(b);
    if |b| % 2 == 1 {
      OddTail(b);
      sum := Add32(sum, Word(b[|b| - 1], 0));
    }
    c := Complement(sum);
  }

  /** The whole words, added in a 32-bit accumulator. */
  method AddWords(b: Bytes) returns (sum: nat)
    requires |b| <= MAX_LENGTH
    ensures sum == Sum(b[..|b| - |b| % 2]) < 0x1_0000_0000 && (|b| % 2 == 0 ==> sum == Sum(b))
  {
    var i: nat := 0;
    sum := 0;
    while i + 1 < |b|
      invariant i % 2 == 0 && i <= |b| && sum == Sum(b[..i]) < 0x1_0000_0000
    {
      Prefix(b, i);
      sum := Add32(sum, Word(b[i], b[i + 1]));
      i := i + 2;
    }
    assert i == |b| - |b| % 2;
    assert |b| % 2 == 0 ==> b[..i] == b;
  }

  lemma OddTail(b: Bytes)
    requires |b| % 2 == 1 && |b| <= MAX_LENGTH
    ensures Sum(b) == Sum(b[..|b| - 1]) + Word(b[|b| - 1], 0) < 0x1_0000_0000
  {
    SumSplit(b, |b| - 1);
    assert b[|b| - 1..] == [b[|b| - 1]];
    SumBound(b);
  }

  /** The folding loop and the complement. */
  method Complement(total: nat) returns (c: word)
    ensures c == ComplementOf(total)
  {
    var sum: nat := total;
    while sum > ONES
      invariant Fold(sum) == Fold(total)
      decreases sum
    {
      sum := sum / 0x1_0000 + sum % 0x1_0000;
    }
    FoldMeaning(total);
    c := ONES - sum;
  }

  lemma Prefix(b: Bytes, i: nat)
    requires i % 2 == 0 && i + 1 < |b| <= MAX_LENGTH
    ensures Sum(b[..i + 2]) == Sum(b[..i]) + Word(b[i], b[i + 1]) < 0x1_0000_0000
  {
    var word := [b[i], b[i + 1]];
    assert b[..i + 2] == b[..i] + word;
    SumConcat(b[..i], word);
    assert word[2..] == [];
    SumBound(b[..i + 2]);
  }
}
