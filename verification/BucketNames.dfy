/** Names of admission nonces, as built by pkg/server/udp_replay_persistent.go:
    "udp-bucket/%s/%016x/%d". The naming is injective for every namespace string. */
module BucketNames {

  function Digit(n: nat): char
    requires n < 16
  {
    if n < 10 then '0' + n as char else 'a' + (n - 10) as char
  }

  lemma DigitInjective(m: nat, n: nat)
    requires m < 16 && n < 16 && Digit(m) == Digit(n)
    ensures m == n
  {
  }

  function Decimal(n: nat): (s: string)
    ensures s != [] && '/' !in s
  {
    if n < 10 then [Digit(n)] else Decimal(n / 10) + [Digit(n % 10)]
  }

  function Hex(n: nat, width: nat): (s: string)
    ensures |s| == width
  {
    if width == 0 then [] else Hex(n / 16, width - 1) + [Digit(n % 16)]
  }

  function Name(space: string, session: nat, bucket: nat): string {
    "udp-bucket/" + space + "/" + Hex(session, 16) + "/" + Decimal(bucket)
  }

  lemma {:induction false} DecimalInjective(m: nat, n: nat)
    requires Decimal(m) == Decimal(n)
    ensures m == n
  {
    var s := Decimal(m);
    assert s[|s| - 1] == Digit(m % 10) == Digit(n % 10);
    DigitInjective(m % 10, n % 10);
    if m >= 10 && n >= 10 {
      assert Decimal(m / 10) == s[..|s| - 1] == Decimal(n / 10);
      DecimalInjective(m / 10, n / 10);
    }
  }

  function Power16(k: nat): nat { if k == 0 then 1 else 16 * Power16(k - 1) }

  lemma {:induction false} HexInjective(m: nat, n: nat, width: nat)
    requires m < Power16(width) && n < Power16(width)
    requires Hex(m, width) == Hex(n, width)
    ensures m == n
  {
    if width > 0 {
      var s := Hex(m, width);
      assert s[|s| - 1] == Digit(m % 16) == Digit(n % 16);
      DigitInjective(m % 16, n % 16);
      assert Hex(m / 16, width - 1) == s[..|s| - 1] == Hex(n / 16, width - 1);
      HexInjective(m / 16, n / 16, width - 1);
    }
  }

  /** A slash-free tail is determined by the string it ends. */
  lemma TailAfterSlash(a: string, b: string, x: string, y: string)
    requires '/' !in x && '/' !in y
    requires a + "/" + x == b + "/" + y
    ensures a == b && x == y
  {
    var s := a + "/" + x;
    assert s[|a|] == '/' && s[|b|] == '/';
    assert forall k :: 0 <= k < |x| ==> s[|a| + 1 + k] == x[k];
    assert forall k :: 0 <= k < |y| ==> s[|b| + 1 + k] == y[k];
    assert |a| == |b|;
    assert a == s[..|a|] && b == s[..|b|];
    assert x == s[|a| + 1..] && y == s[|b| + 1..];
  }

  lemma NameInjective(space: string, session: nat, bucket: nat, space': string, session': nat, bucket': nat)
    requires session < 0x1_0000_0000_0000_0000 && session' < 0x1_0000_0000_0000_0000
    requires Name(space, session, bucket) == Name(space', session', bucket')
    ensures space == space' && session == session' && bucket == bucket'
  {
    var head, head' := "udp-bucket/" + space, "udp-bucket/" + space';
    var a, a' := head + "/" + Hex(session, 16), head' + "/" + Hex(session', 16);
    TailAfterSlash(a, a', Decimal(bucket), Decimal(bucket'));
    DecimalInjective(bucket, bucket');
    assert |head| == |head'|;
    assert head == a[..|head|] == head';
    assert Hex(session, 16) == a[|head| + 1..] == Hex(session', 16);
    assert space == head[11..] == space';
    assert Power16(4) == 65536;
    assert Power16(8) == 0x1_0000_0000;
    assert Power16(12) == 0x1_0000_0000_0000;
    HexInjective(session, session', 16);
  }
}
