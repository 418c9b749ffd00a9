/** The record layer of internal/rawstream/frame.go: a two-byte big-endian length, used as associated
    data, followed by the sealed payload.  The cipher is a parameter.  `Ideal` says that it opens
    nothing but what was sealed, `Opens` that it opens what was sealed; `LogCipherIsIdeal` shows that
    the two can hold together for every log of sealed payloads. */
module RawRecord {
  import opened Octets

  const MAX_PAYLOAD := 32768
  const TAG := 16
  const MAX_WIRE := MAX_PAYLOAD + TAG
  const MAX_SEQUENCE := 0xFFFF_FFFF_FFFF_FFFF

  // ---------------------------------------------------------------- big-endian integers

  function Pow256(width: nat): nat { if width == 0 then 1 else 256 * Pow256(width - 1) }

  function BigEndian(n: nat, width: nat): (r: Bytes)
    ensures |r| == width
  {
    if width == 0 then [] else BigEndian(n / 256, width - 1) + [n % 256]
  }

  function Value(bytes: Bytes): nat {
    if bytes == [] then 0 else 256 * Value(bytes[..|bytes| - 1]) + bytes[|bytes| - 1]
  }

  lemma {:induction false} EncodedValue(n: nat, width: nat)
    requires n < Pow256(width)
    ensures Value(BigEndian(n, width)) == n
  {
    if width != 0 {
      var r := BigEndian(n, width);
      assert r[..width - 1] == BigEndian(n / 256, width - 1);
      EncodedValue(n / 256, width - 1);
    }
  }

  lemma {:induction false} ValueEncoded(bytes: Bytes)
    ensures Value(bytes) < Pow256(|bytes|)
    ensures BigEndian(Value(bytes), |bytes|) == bytes
  {
    if bytes != [] {
      var front, last := bytes[..|bytes| - 1], bytes[|bytes| - 1];
      ValueEncoded(front);
      assert Value(bytes) / 256 == Value(front) && Value(bytes) % 256 == last;
      assert front + [last] == bytes;
    }
  }

  // ---------------------------------------------------------------- records

  /** The length that precedes a payload of `size` bytes. */
  function Header(size: nat): Bytes { BigEndian(size + TAG, 2) }

  function Nonce(sequence: nat): Bytes { [0, 0, 0, 0] + BigEndian(sequence, 8) }

  lemma HeaderValue(size: nat)
    requires size <= MAX_PAYLOAD
    ensures Value(Header(size)) == size + TAG
  {
    assert Pow256(2) == 0x1_0000;
    EncodedValue(size + TAG, 2);
  }

  lemma NoncesDiffer(i: nat, j: nat)
    requires i < MAX_SEQUENCE && j < MAX_SEQUENCE && Nonce(i) == Nonce(j)
    ensures i == j
  {
    assert Pow256(4) == 0x1_0000_0000;
    assert Pow256(8) == 0x1_0000_0000 * 0x1_0000_0000;
    EncodedValue(i, 8);
    EncodedValue(j, 8);
    assert BigEndian(i, 8) == Nonce(i)[4..] == Nonce(j)[4..] == BigEndian(j, 8);
  }

  datatype Opened = Plain(payload: Bytes) | Rejected

  /** `seal(nonce, payload, associated)` and `open(nonce, sealed, associated)`. */
  datatype Cipher = Cipher(
    seal: (Bytes, Bytes, Bytes) -> Bytes,
    open: (Bytes, Bytes, Bytes) -> Opened)
  {
    predicate OpensTo(nonce: Bytes, sealed: Bytes, associated: Bytes, payload: Bytes) {
      open(nonce, sealed, associated) == Plain(payload)
    }

    function Sealed(sequence: nat, payload: Bytes): Bytes {
      seal(Nonce(sequence), payload, Header(|payload|))
    }

    function Record(sequence: nat, payload: Bytes): Bytes {
      Header(|payload|) + Sealed(sequence, payload)
    }
  }

  /** Payloads in sealing order: payload i was sealed under nonce i, with its own length as
      associated data. */
  type Log = seq<Bytes>

  /** `Log` entry i accounts for one successful opening. */
  predicate Accounts(c: Cipher, log: Log, i: nat, nonce: Bytes, sealed: Bytes, associated: Bytes, payload: Bytes) {
    && i < |log|
    && nonce == Nonce(i)
    && associated == Header(|log[i]|)
    && sealed == c.Sealed(i, log[i])
    && payload == log[i]
  }

  /** Open succeeds only on what Seal produced under the same nonce and associated data. */
  ghost predicate Ideal(c: Cipher, log: Log) {
    forall nonce, sealed, associated, payload ::
      c.OpensTo(nonce, sealed, associated, payload) ==>
        exists i: nat :: Accounts(c, log, i, nonce, sealed, associated, payload)
  }

  /** What was sealed opens, and is longer than its payload by the tag. */
  ghost predicate Opens(c: Cipher, log: Log) {
    forall i: nat | i < |log| :: OpensAt(c, log, i)
  }

  ghost predicate OpensAt(c: Cipher, log: Log, i: nat)
    requires i < |log|
  {
    && |c.Sealed(i, log[i])| == |log[i]| + TAG
    && c.OpensTo(Nonce(i), c.Sealed(i, log[i]), Header(|log[i]|), log[i])
  }

  ghost predicate Bounded(log: Log) {
    && |log| <= MAX_SEQUENCE
    && forall i | 0 <= i < |log| :: |log[i]| <= MAX_PAYLOAD
  }

  function LookUp(log: Log, i: nat, nonce: Bytes, sealed: Bytes, associated: Bytes): Opened {
    if i >= |log| then Rejected
    else if nonce == Nonce(i) && associated == Header(|log[i]|) && sealed == log[i] + seq(TAG, _ => 0)
      then Plain(log[i])
    else Rejected
  }

  /** Pads the payload. */
  const PAD: (Bytes, Bytes, Bytes) -> Bytes := (nonce, payload, associated) => payload + seq(TAG, _ => 0)

  /** A cipher that pads, and opens what its log says was sealed. */
  function LogCipher(log: Log): Cipher {
    Cipher(PAD, (nonce, sealed, associated) => LookUp(log, Value(nonce), nonce, sealed, associated))
  }

  /** It is ideal and opens everything in its log. */
  lemma LogCipherIsIdeal(log: Log)
    requires Bounded(log)
    ensures Ideal(LogCipher(log), log) && Opens(LogCipher(log), log)
  {
    var c := LogCipher(log);
    forall nonce, sealed, associated, payload | c.OpensTo(nonce, sealed, associated, payload)
      ensures exists i: nat :: Accounts(c, log, i, nonce, sealed, associated, payload)
    {
      assert Accounts(c, log, Value(nonce), nonce, sealed, associated, payload);
    }
    forall i: nat | i < |log| ensures OpensAt(c, log, i) {
      NonceValue(i);
    }
  }

  lemma NonceValue(i: nat)
    requires i < MAX_SEQUENCE
    ensures Value(Nonce(i)) == i
  {
    assert Pow256(4) == 0x1_0000_0000;
    assert Pow256(8) == 0x1_0000_0000 * 0x1_0000_0000;
    EncodedValue(i, 8);
    ValueAfterZeros(BigEndian(i, 8), 4);
    assert Nonce(i) == seq(4, _ => 0) + BigEndian(i, 8);
  }

  lemma {:induction false} ValueAfterZeros(bytes: Bytes, zeros: nat)
    ensures Value(seq(zeros, _ => 0) + bytes) == Value(bytes)
  {
    var z: Bytes := seq(zeros, _ => 0);
    if bytes != [] {
      ValueAfterZeros(bytes[..|bytes| - 1], zeros);
      var all := z + bytes;
      assert all[..|all| - 1] == z + bytes[..|bytes| - 1];
    } else if zeros > 0 {
      ValueAfterZeros([], zeros - 1);
      var less: Bytes := seq(zeros - 1, _ => 0);
      assert z + bytes == z && less + bytes == less;
      assert z[..zeros - 1] == less;
    }
  }

  // ---------------------------------------------------------------- payload and wire of a log

  /** All bytes the log's records occupy on the wire. */
  function Wire(c: Cipher, log: Log): Bytes {
    if log == [] then []
    else Wire(c, log[..|log| - 1]) + c.Record(|log| - 1, log[|log| - 1])
  }

  lemma WirePush(c: Cipher, log: Log, payload: Bytes)
    ensures Wire(c, log + [payload]) == Wire(c, log) + c.Record(|log|, payload)
  {
    assert (log + [payload])[..|log|] == log;
  }
}
