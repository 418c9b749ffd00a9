/** Echo tokens of internal/icmpmsg/icmp.go: a request leaves with a fresh identifier and sequence pair
    in place of its own, and a reply gets the original pair back.  Proved: what the replacement does to
    the checksum, for both address families, and which reply gets which pair over every run. */
module EchoTokens {
  import opened Octets
  import opened IcmpChecksum
  import opened Sets

  const MAX_PENDING := 2048
  const MINUTE := 60_000_000_000
  const TOKENS := 0x1_0000_0000

  /** An identifier and sequence pair: the high and the low half of a 32-bit number. */
  datatype Token = Token(id: word, number: word)

  /** The two bytes of a word. */
  function Pair(n: word): (r: Bytes)
    ensures |r| == 2 && Word(r[0], r[1]) == n
  {
    WordOfBytes(n);
    var high: byte, low: byte :| Word(high, low) == n;
    [high, low]
  }

  function Quad(t: Token): (r: Bytes)
    ensures |r| == 4
  {
    Pair(t.id) + Pair(t.number)
  }

  /** The checksum field, and the identifier and sequence number. */
  function Field(p: Bytes): (n: word)
    requires |p| >= 8
  {
    Word(p[2], p[3])
  }

  function TokenOf(p: Bytes): Token
    requires |p| >= 8
  {
    Token(Word(p[4], p[5]), Word(p[6], p[7]))
  }

  function Halves(t: Token): nat { t.id + t.number }

  /** The packet with another checksum field and token. */
  function With(p: Bytes, field: word, token: Token): (r: Bytes)
    requires |p| >= 8
    ensures |r| == |p|
  {
    p[..2] + (Pair(field) + (Quad(token) + p[8..]))
  }

  /** The incremental update of a checksum when token `was` is replaced by `next`. */
  function Adjusted(field: word, was: Token, next: Token): (c: word) {
    ComplementOf((ONES - field) + (ONES - was.id) + (ONES - was.number) + next.id + next.number)
  }

  /** The checksum of a rewritten packet: updated, or computed anew with the field blank. */
  function NewField(p: Bytes, token: Token, ipv6: bool): word
    requires |p| >= 8
  {
    if !ipv6 then ChecksumOf(With(p, 0, token))
    else if Field(p) == 0 then 0
    else Adjusted(Field(p), TokenOf(p), token)
  }

  function Rewritten(p: Bytes, token: Token, ipv6: bool): (r: Bytes)
    requires |p| >= 8
    ensures |r| == |p|
  {
    With(p, NewField(p, token, ipv6), token)
  }

  // ---------------------------------------------------------------- what it does to the packet

  lemma WithFields(p: Bytes, field: word, token: Token)
    requires |p| >= 8
    ensures var r := With(p, field, token);
      Field(r) == field && TokenOf(r) == token && r[..2] == p[..2] && r[8..] == p[8..]
  {
    var r := With(p, field, token);
    assert r[2] == Pair(field)[0] && r[3] == Pair(field)[1];
    assert r[4] == Quad(token)[0] && r[5] == Quad(token)[1] && r[6] == Quad(token)[2] && r[7] == Quad(token)[3];
    assert Quad(token)[..2] == Pair(token.id) && Quad(token)[2..] == Pair(token.number);
  }

  lemma SumPair(n: word)
    ensures Sum(Pair(n)) == n
  {
    assert Pair(n)[2..] == [];
  }

  lemma SumQuad(t: Token)
    ensures Sum(Quad(t)) == Halves(t)
  {
    SumPair(t.id);
    SumPair(t.number);
    SumConcat(Pair(t.id), Pair(t.number));
  }

  lemma SumWith(p: Bytes, field: word, token: Token)
    requires |p| >= 8
    ensures Sum(With(p, field, token)) == Sum(p[..2]) + field + Halves(token) + Sum(p[8..])
  {
    SumPair(field);
    SumQuad(token);
    SumConcat(Quad(token), p[8..]);
    SumConcat(Pair(field), Quad(token) + p[8..]);
    SumConcat(p[..2], Pair(field) + (Quad(token) + p[8..]));
  }

  /** Everything but the checksum and the token is kept, and the token is the new one. */
  lemma RewriteKeeps(p: Bytes, token: Token, ipv6: bool)
    requires |p| >= 8
    ensures var r := Rewritten(p, token, ipv6); TokenOf(r) == token && r[..2] == p[..2] && r[8..] == p[8..]
  {
    WithFields(p, NewField(p, token, ipv6), token);
  }

  /** The words a rewrite leaves alone. */
  function Others(p: Bytes): nat
    requires |p| >= 8
  {
    Sum(p[..2]) + Sum(p[8..])
  }

  lemma Ipv4Sum(p: Bytes, token: Token, r: Bytes)
    requires |p| >= 8 && r == Rewritten(p, token, false)
    ensures var blank := Others(p) + Halves(token); Sum(r) == blank + (ONES - Fold(blank))
  {
    SumWith(p, 0, token);
    SumWith(p, NewField(p, token, false), token);
  }

  lemma Next(p: Bytes, i: nat)
    requires i + 2 <= |p|
    ensures Sum(p[i..]) == Word(p[i], p[i + 1]) + Sum(p[i + 2..])
  {
    assert p[i..][2..] == p[i + 2..];
  }

  lemma SumParts(p: Bytes)
    requires |p| >= 8
    ensures Sum(p) == Others(p) + Field(p) + Halves(TokenOf(p))
  {
    SumSplit(p, 2);
    Next(p, 2);
    Next(p, 4);
    Next(p, 6);
  }

  lemma CompletedVerifies(r: Bytes, blank: nat)
    requires Fold(blank) <= ONES && Sum(r) == blank + (ONES - Fold(blank))
    ensures Verifies(r)
  {
    FoldMeaning(blank);
    ComplementCancels(blank, Fold(blank));
  }

  /** An IPv4 packet verifies after every rewrite, whatever its checksum was. */
  lemma Ipv4Verifies(p: Bytes, token: Token)
    requires |p| >= 8
    ensures Verifies(Rewritten(p, token, false))
  {
    var blank := Others(p) + Halves(token);
    FoldMeaning(blank);
    Ipv4Sum(p, token, Rewritten(p, token, false));
    CompletedVerifies(Rewritten(p, token, false), blank);
  }

  lemma ComplementCancels(s: nat, f: nat)
    requires f <= ONES && Residue(f) == Residue(s) && (f == 0 <==> s == 0)
    ensures Residue(s + (ONES - f)) == 0 && s + (ONES - f) > 0
  {
    SameShift(ONES - f, s, f);
  }

  lemma AdjustedMeaning(field: word, a: Token, b: Token)
    ensures Residue(Adjusted(field, a, b) + Halves(b)) == Residue(field + Halves(a))
  {
    var sum := (ONES - field) + (ONES - a.id) + (ONES - a.number) + b.id + b.number;
    ComplementExchanges(sum, field + Halves(a), Halves(b));
  }

  lemma ComplementExchanges(sum: nat, was: nat, next: nat)
    requires sum + was == next + 3 * ONES
    ensures Residue(ComplementOf(sum) + next) == Residue(was)
  {
    FoldMeaning(sum);
    Exchanged(sum, Fold(sum), was, next);
  }

  lemma Exchanged(sum: nat, f: nat, was: nat, next: nat)
    requires sum + was == next + 3 * ONES && f <= ONES && Residue(f) == Residue(sum)
    ensures Residue(ONES - f + next) == Residue(was)
  {
    CongruentShift(next, 1);
    CongruentShift(next, 3);
    SameShift(ONES - f + next, sum, f);
    SameShift(sum, ONES - f + next, was);
  }

  /** The checksum field is not zero, or the old and the new token add the same. */
  predicate Carries(p: Bytes, token: Token)
    requires |p| >= 8
  {
    Field(p) != 0 || Residue(Halves(TokenOf(p))) == Residue(Halves(token))
  }

  /** An IPv6 packet keeps its sum modulo 65535 exactly when its checksum field is not zero, or the old
      and the new token add the same; a zero field is passed on for the kernel to fill in. */
  lemma Ipv6KeepsSum(p: Bytes, token: Token)
    requires |p| >= 8
    ensures Residue(Sum(Rewritten(p, token, true))) == Residue(Sum(p)) <==> Carries(p, token)
  {
    UpdateBalances(p, token);
    BalancedSum(p, token, NewField(p, token, true), Rewritten(p, token, true));
  }

  /** An empty field stays empty, and another takes up the difference between the tokens. */
  ghost predicate Balances(p: Bytes, token: Token, update: word)
    requires |p| >= 8
  {
    if Field(p) == 0 then update == 0 else Residue(update + Halves(token)) == Residue(Field(p) + Halves(TokenOf(p)))
  }

  lemma UpdateBalances(p: Bytes, token: Token)
    requires |p| >= 8
    ensures Balances(p, token, NewField(p, token, true))
  {
    AdjustedMeaning(Field(p), TokenOf(p), token);
  }

  lemma BalancedSum(p: Bytes, token: Token, update: word, r: Bytes)
    requires |p| >= 8 && r == With(p, update, token) && Balances(p, token, update)
    ensures Residue(Sum(r)) == Residue(Sum(p)) <==> Carries(p, token)
  {
    SumParts(p);
    SumWith(p, update, token);
    SumsAgree(Sum(r), Sum(p), Others(p), Field(p), update, Halves(TokenOf(p)), Halves(token));
  }

  lemma SumsAgree(after: nat, before: nat, others: nat, field: word, update: word, a: nat, b: nat)
    requires if field == 0 then update == 0 else Residue(update + b) == Residue(field + a)
    requires after == others + update + b && before == others + field + a
    ensures Residue(after) == Residue(before) <==> field != 0 || Residue(a) == Residue(b)
  {
    SameShift(others, update + b, field + a);
  }

  /** The receiver's test with a pseudo-header. */
  predicate VerifiesWith(b: Bytes, pseudo: nat) { pseudo + Sum(b) > 0 && Residue(pseudo + Sum(b)) == 0 }

  /** With any fixed pseudo-header an IPv6 echo packet that verifies still does after a rewrite exactly
      when its checksum field is not zero, or both tokens add the same; and then one that does not verify
      does not begin to. */
  lemma Ipv6Verifies(p: Bytes, token: Token, pseudo: nat, r: Bytes)
    requires |p| >= 8 && p[0] != 0 && r == Rewritten(p, token, true)
    ensures VerifiesWith(p, pseudo) ==> (VerifiesWith(r, pseudo) <==> Carries(p, token))
    ensures Carries(p, token) ==> (VerifiesWith(r, pseudo) <==> VerifiesWith(p, pseudo))
  {
    Ipv6KeepsSum(p, token);
    Ipv6Positive(p, token, r);
    SameVerdict(r, p, pseudo);
  }

  /** An echo request with nothing in it whose checksum comes out as zero, with its pseudo-header, and
      the next token. */
  ghost predicate IsZeroField(p: Bytes, token: Token, pseudo: nat) {
    && |p| == 8 && p[0] == 128 && p[1] == 0 && Field(p) == 0 && TokenOf(p) == Token(0, 0)
    && token == Token(0, 1) && pseudo == 32767
  }

  lemma ZeroFieldExists() returns (p: Bytes, token: Token, pseudo: nat)
    ensures IsZeroField(p, token, pseudo)
  {
    p, token, pseudo := [128, 0, 0, 0, 0, 0, 0, 0], Token(0, 1), 32767;
  }

  lemma SumOfTwo(b: Bytes)
    requires |b| == 2
    ensures Sum(b) == Word(b[0], b[1])
  {
    assert b[2..] == [];
  }

  lemma ZeroFieldOthers(p: Bytes)
    requires |p| == 8 && p[0] == 128 && p[1] == 0
    ensures Others(p) == 32768
  {
    ShiftedIsProduct(128);
    SumOfTwo(p[..2]);
    assert p[8..] == [];
  }

  lemma ZeroFieldVerifies(p: Bytes, token: Token, pseudo: nat)
    requires IsZeroField(p, token, pseudo)
    ensures VerifiesWith(p, pseudo)
  {
    SumParts(p);
    ZeroFieldOthers(p);
  }

  lemma OneAddsMore(p: Bytes, token: Token, pseudo: nat)
    requires IsZeroField(p, token, pseudo)
    ensures !Carries(p, token)
  {
    assert Residue(Halves(TokenOf(p))) == 0;
    assert Residue(Halves(token)) == 1;
  }

  /** A rewrite that turns a packet that verifies into one that does not. */
  ghost predicate Spoils(p: Bytes, token: Token, pseudo: nat) {
    |p| >= 8 && VerifiesWith(p, pseudo) && !VerifiesWith(Rewritten(p, token, true), pseudo)
  }

  lemma SpoilsWhen(p: Bytes, token: Token, pseudo: nat)
    requires |p| >= 8 && p[0] != 0 && VerifiesWith(p, pseudo)
    requires !Carries(p, token)
    ensures Spoils(p, token, pseudo)
  {
    Ipv6Verifies(p, token, pseudo, Rewritten(p, token, true));
  }

  /** The packet 80 00 00 00 00 00 00 00 verifies with a pseudo-header that adds 32767, and does not after
      a rewrite to the next token. */
  lemma ZeroFieldIsNotUpdated() returns (p: Bytes, token: Token, pseudo: nat)
    ensures IsZeroField(p, token, pseudo) && Spoils(p, token, pseudo)
  {
    p, token, pseudo := ZeroFieldExists();
    ZeroFieldVerifies(p, token, pseudo);
    OneAddsMore(p, token, pseudo);
    SpoilsWhen(p, token, pseudo);
  }

  lemma SameVerdict(r: Bytes, p: Bytes, pseudo: nat)
    requires Sum(r) > 0 && Sum(p) > 0
    ensures Residue(Sum(r)) == Residue(Sum(p)) ==> (VerifiesWith(r, pseudo) <==> VerifiesWith(p, pseudo))
    ensures VerifiesWith(p, pseudo) && VerifiesWith(r, pseudo) ==> Residue(Sum(r)) == Residue(Sum(p))
  {
    SameShift(pseudo, Sum(r), Sum(p));
  }

  /** Neither sum is zero: an echo packet begins with a type that is not. */
  lemma Ipv6Positive(p: Bytes, token: Token, r: Bytes)
    requires |p| >= 8 && p[0] != 0 && r == Rewritten(p, token, true)
    ensures Sum(r) > 0 && Sum(p) > 0
  {
    RewriteKeeps(p, token, true);
    assert r[0] == r[..2][0] == p[..2][0] == p[0];
    FirstCounts(r);
    FirstCounts(p);
  }

  lemma FirstCounts(p: Bytes)
    requires p != [] && p[0] != 0
    ensures Sum(p) > 0
  {
  }

  // ---------------------------------------------------------------- outstanding requests

  datatype Pending = Pending(original: Token, created: int)

  type Outstanding = map<Token, Pending>

  predicate Aged(p: Pending, now: int) { now - p.created >= MINUTE }

  function Purged(o: Outstanding, now: int): Outstanding { map t | t in o && !Aged(o[t], now) :: o[t] }

  /** Old requests are forgotten only when there is no room. */
  function Room(o: Outstanding, now: int): Outstanding { if |o| >= MAX_PENDING then Purged(o, now) else o }

  /** One tracker, and the number of tokens the whole process has given out. */
  datatype Tracker = Tracker(given: nat, pending: Outstanding)

  /** The next 32-bit number. */
  function Successor(t: Token): Token {
    if t.number < ONES then Token(t.id, t.number + 1) else Token(if t.id < ONES then t.id + 1 else 0, 0)
  }

  function Value(t: Token): (n: nat)
    ensures n < TOKENS
  {
    t.id * 0x1_0000 + t.number
  }

  /** The token of a counter that started at zero. */
  function Numbered(given: nat): Token { if given == 0 then Token(0, 0) else Successor(Numbered(given - 1)) }

  lemma {:induction false} NumberedValue(given: nat)
    requires given < TOKENS
    ensures Value(Numbered(given)) == given
  {
    if given > 0 {
      NumberedValue(given - 1);
    }
  }

  lemma SameValue(t: Token, u: Token)
    requires Value(t) == Value(u)
    ensures t == u
  {
  }

  /** The counter wraps around. */
  lemma {:induction false} NumberedAgain(given: nat)
    ensures Numbered(given + TOKENS) == Numbered(given)
  {
    if given == 0 {
      NumberedValue(TOKENS - 1);
    } else {
      NumberedAgain(given - 1);
    }
  }

  /** `Elsewhere`: another tracker of the process takes a token. */
  datatype Op = Prepare(original: Token, now: int) | Elsewhere | Restore(token: Token, now: int)

  predicate Takes(s: Tracker, op: Op) {
    op.Elsewhere? || (op.Prepare? && |Room(s.pending, op.now)| < MAX_PENDING)
  }

  function After(s: Tracker, op: Op): Tracker {
    match op
    case Prepare(original, now) =>
      var room := Room(s.pending, now);
      if |room| >= MAX_PENDING then s.(pending := room)
      else Tracker(s.given + 1, room[Numbered(s.given + 1) := Pending(original, now)])
    case Elsewhere => s.(given := s.given + 1)
    case Restore(token, _) => s.(pending := s.pending - {token})
  }

  function AfterAll(s: Tracker, ops: seq<Op>): Tracker {
    if ops == [] then s else After(AfterAll(s, ops[..|ops| - 1]), ops[|ops| - 1])
  }

  /** The pair a reply gets back, if its token is outstanding and young enough. */
  datatype Found = Found(original: Token) | NotFound

  function Lookup(o: Outstanding, token: Token, now: int): Found {
    if token in o && !Aged(o[token], now) then Found(o[token].original) else NotFound
  }

  lemma OneMore(o: Outstanding, token: Token, entry: Pending)
    ensures |o[token := entry]| <= |o| + 1
  {
    assert o[token := entry].Keys == o.Keys + {token};
  }

  lemma AfterBounded(s: Tracker, op: Op)
    requires |s.pending| <= MAX_PENDING
    ensures |After(s, op).pending| <= MAX_PENDING
  {
    match op
    case Prepare(original, now) =>
      var room := Room(s.pending, now);
      Fewer(room.Keys, s.pending.Keys);
      OneMore(room, Numbered(s.given + 1), Pending(original, now));
    case Elsewhere =>
    case Restore(token, _) => Fewer((s.pending - {token}).Keys, s.pending.Keys);
  }

  lemma {:induction false} NeverTooMany(seed: nat, ops: seq<Op>)
    ensures |AfterAll(Tracker(seed, map[]), ops).pending| <= MAX_PENDING
  {
    if ops != [] {
      NeverTooMany(seed, ops[..|ops| - 1]);
      AfterBounded(AfterAll(Tracker(seed, map[]), ops[..|ops| - 1]), ops[|ops| - 1]);
    }
  }

  /** Two tokens given out fewer than 2^32 apart differ. */
  lemma {:induction false} TokensDiffer(i: nat, j: nat)
    requires i < j < i + TOKENS
    ensures Numbered(i) != Numbered(j)
  {
    if i >= TOKENS {
      TokensDiffer(i - TOKENS, j - TOKENS);
      NumberedAgain(i - TOKENS);
      NumberedAgain(j - TOKENS);
    } else if j >= TOKENS {
      NumberedAgain(j - TOKENS);
      NumberedValue(j - TOKENS);
      NumberedValue(i);
    } else {
      NumberedValue(i);
      NumberedValue(j);
    }
  }

  lemma GivenGrows(s: Tracker, op: Op)
    ensures s.given <= After(s, op).given <= s.given + 1
  {
  }

  lemma {:induction false} GivenAllGrows(s: Tracker, ops: seq<Op>)
    ensures s.given <= AfterAll(s, ops).given
  {
    if ops != [] {
      GivenAllGrows(s, ops[..|ops| - 1]);
      GivenGrows(AfterAll(s, ops[..|ops| - 1]), ops[|ops| - 1]);
    }
  }

  /** The operation is not a reply to `token`, and comes less than a minute after `created`. */
  predicate Passes(op: Op, token: Token, created: int) {
    match op
    case Prepare(_, now) => now - created < MINUTE
    case Elsewhere => true
    case Restore(other, now) => other != token && now - created < MINUTE
  }

  lemma EntryStays(s: Tracker, op: Op, at: nat)
    requires Numbered(at) in s.pending && Passes(op, Numbered(at), s.pending[Numbered(at)].created)
    requires at <= s.given && After(s, op).given < at + TOKENS
    ensures Numbered(at) in After(s, op).pending
    ensures After(s, op).pending[Numbered(at)] == s.pending[Numbered(at)]
  {
    if op.Prepare? && Takes(s, op) {
      TokensDiffer(at, s.given + 1);
    }
  }

  /** Whatever is prepared, restored and given out elsewhere in between, a request keeps its entry for a
      minute, unless 2^32 tokens were given out since. */
  lemma {:induction false} EntryStaysAll(s: Tracker, ops: seq<Op>, at: nat)
    requires Numbered(at) in s.pending && at <= s.given && AfterAll(s, ops).given < at + TOKENS
    requires forall i | 0 <= i < |ops| :: Passes(ops[i], Numbered(at), s.pending[Numbered(at)].created)
    ensures Numbered(at) in AfterAll(s, ops).pending
    ensures AfterAll(s, ops).pending[Numbered(at)] == s.pending[Numbered(at)]
  {
    if ops != [] {
      var n := |ops| - 1;
      var before := AfterAll(s, ops[..n]);
      GivenAllGrows(s, ops[..n]);
      GivenGrows(before, ops[n]);
      assert forall i | 0 <= i < n :: ops[..n][i] == ops[i];
      EntryStaysAll(s, ops[..n], at);
      EntryStays(before, ops[n], at);
    }
  }

  lemma RequestFound(s: Tracker, original: Token, created: int, ops: seq<Op>, now: int)
    requires Takes(s, Prepare(original, created)) && now - created < MINUTE
    requires forall i | 0 <= i < |ops| :: Passes(ops[i], Numbered(s.given + 1), created)
    requires AfterAll(After(s, Prepare(original, created)), ops).given <= s.given + TOKENS
    ensures var later := AfterAll(After(s, Prepare(original, created)), ops);
      Lookup(later.pending, Numbered(s.given + 1), now) == Found(original)
  {
    EntryStaysAll(After(s, Prepare(original, created)), ops, s.given + 1);
  }

  /** End to end: a request is prepared; less than a minute and fewer than 2^32 tokens later, a reply
      arrives that carries the request's wire token and was not answered before.  It is answered with the
      request's own identifier and sequence number, and otherwise unchanged. */
  lemma ReplyIsRestored(s: Tracker, request: Bytes, ipv6: bool, created: int, ops: seq<Op>, reply: Bytes, now: int)
    requires |request| >= 8 && |reply| >= 8
    requires Takes(s, Prepare(TokenOf(request), created)) && now - created < MINUTE
    requires TokenOf(reply) == TokenOf(Rewritten(request, Numbered(s.given + 1), ipv6))
    requires forall i | 0 <= i < |ops| :: Passes(ops[i], TokenOf(reply), created)
    requires AfterAll(After(s, Prepare(TokenOf(request), created)), ops).given <= s.given + TOKENS
    ensures var later := AfterAll(After(s, Prepare(TokenOf(request), created)), ops);
      Lookup(later.pending, TokenOf(reply), now) == Found(TokenOf(request))
    ensures var answer := Rewritten(reply, TokenOf(request), ipv6);
      TokenOf(answer) == TokenOf(request) && answer[..2] == reply[..2] && answer[8..] == reply[8..]
  {
    RewriteKeeps(request, Numbered(s.given + 1), ipv6);
    RequestFound(s, TokenOf(request), created, ops, now);
    RewriteKeeps(reply, TokenOf(request), ipv6);
  }

  lemma AbsentStays(s: Tracker, op: Op, at: nat)
    requires Numbered(at) !in s.pending && at <= s.given && After(s, op).given < at + TOKENS
    ensures Numbered(at) !in After(s, op).pending
  {
    if op.Prepare? && Takes(s, op) {
      TokensDiffer(at, s.given + 1);
    }
  }

  /** A token that was consumed, or forgotten, is not found again before 2^32 tokens were given out. */
  lemma {:induction false} ConsumedOnce(s: Tracker, ops: seq<Op>, at: nat, now: int)
    requires Numbered(at) !in s.pending && at <= s.given && AfterAll(s, ops).given < at + TOKENS
    ensures Numbered(at) !in AfterAll(s, ops).pending
    ensures Lookup(AfterAll(s, ops).pending, Numbered(at), now) == NotFound
  {
    if ops != [] {
      var before := AfterAll(s, ops[..|ops| - 1]);
      GivenAllGrows(s, ops[..|ops| - 1]);
      GivenGrows(before, ops[|ops| - 1]);
      ConsumedOnce(s, ops[..|ops| - 1], at, now);
      AbsentStays(before, ops[|ops| - 1], at);
    }
  }

  // ---------------------------------------------------------------- raw sockets

  datatype Answer = Packet(data: Bytes) | Refused

  /** Raw sockets give ICMPv4 with its IP header, and sometimes ICMPv6 too. */
  function Stripped(raw: Bytes, ipv6: bool): Answer {
    if |raw| < 8 then Refused
    else if !ipv6 && raw[0] / 16 == 4 then
      var size := raw[0] % 16 * 4;
      if |raw| < 28 || size < 20 || size + 8 > |raw| || raw[9] != 1 then Refused else Packet(raw[size..])
    else if ipv6 && raw[0] / 16 == 6 then
      if |raw| < 48 || raw[6] != 58 then Refused else Packet(raw[40..])
    else Packet(raw)
  }

  /** An IP header before the message, whatever its options, or none. */
  predicate IsHeader(h: Bytes, ipv6: bool) {
    if ipv6 then |h| == 40 && h[0] / 16 == 6 && h[6] == 58
    else |h| >= 20 && h[0] / 16 == 4 && h[0] % 16 * 4 == |h| && h[9] == 1
  }

  /** A message comes out as it is, with its IP header in front or without. */
  lemma StripsHeader(h: Bytes, message: Bytes, ipv6: bool)
    requires |message| >= 8 && message[0] / 16 != 4 && message[0] / 16 != 6 && (h == [] || IsHeader(h, ipv6))
    ensures Stripped(h + message, ipv6) == Packet(message)
  {
    if h == [] {
      assert h + message == message;
    } else {
      assert (h + message)[|h|..] == message;
    }
  }

  // ---------------------------------------------------------------- the tracker as it runs

  predicate IsEcho(p: Bytes, kind: int) { |p| >= 8 && p[0] == kind && p[1] == 0 }

  function RequestKind(ipv6: bool): int { if ipv6 then 128 else 8 }
  function ReplyKind(ipv6: bool): int { if ipv6 then 129 else 0 }

  /** A request is admitted when it is an echo request whose IPv4 checksum verifies. */
  predicate Admitted(p: Bytes, ipv6: bool) {
    IsEcho(p, RequestKind(ipv6)) && (!ipv6 ==> Verifies(p))
  }

  /** The process-wide counter, which starts at any token. */
  class TokenCounter {
    var value: Token
    ghost var given: nat

    ghost predicate Valid() reads this { value == Numbered(given) }

    constructor (seed: Token)
      ensures Valid() && value == seed && given == Value(seed)
    {
      NumberedValue(Value(seed));
      SameValue(seed, Numbered(Value(seed)));
      value, given := seed, Value(seed);
    }

    method Add() returns (token: Token)
      requires Valid()
      modifies this
      ensures Valid() && given == old(given) + 1 && token == Numbered(given)
    {
      value := Successor(value);
      given := given + 1;
      token := value;
    }
  }

  /** What preparing a request does: nothing unless it is admitted, and a token if there is room. */
  ghost predicate Taken(s: Tracker, s': Tracker, p: Bytes, ipv6: bool, now: int, ok: bool, token: Token) {
    if Admitted(p, ipv6) then
      && s' == After(s, Prepare(TokenOf(p), now)) && ok == Takes(s, Prepare(TokenOf(p), now))
      && (ok ==> token == Numbered(s.given + 1))
    else s' == s && !ok
  }

  class EchoTracker {
    const counter: TokenCounter
    var pending: Outstanding

    ghost function State(): Tracker
      reads this, counter
    {
      Tracker(counter.given, pending)
    }

    constructor (counter: TokenCounter)
      ensures this.counter == counter && pending == map[]
    {
      this.counter := counter;
      pending := map[];
    }

    method Purge(now: int)
      modifies this
      ensures pending == Purged(old(pending), now)
    {
      var left := pending.Keys;
      while left != {}
        invariant left <= old(pending).Keys
        invariant forall t :: t in pending <==> t in old(pending) && (t in left || !Aged(old(pending)[t], now))
        invariant forall t | t in pending :: pending[t] == old(pending)[t]
        decreases |left|
      {
        var t :| t in left;
        if now - pending[t].created >= MINUTE {
          pending := pending - {t};
        }
        left := left - {t};
      }
    }

    /** Makes room, takes a token and records the original pair under it. */
    method Register(original: Token, now: int) returns (ok: bool, token: Token)
      requires counter.Valid()
      modifies this, counter
      ensures counter.Valid() && State() == After(old(State()), Op.Prepare(original, now))
      ensures ok == Takes(old(State()), Op.Prepare(original, now)) && (ok ==> token == Numbered(old(State()).given + 1))
    {
      token := Token(0, 0);
      if |pending| >= MAX_PENDING {
        Purge(now);
        if |pending| >= MAX_PENDING {
          return false, token;
        }
      }
      token := counter.Add();
      pending := pending[token := Pending(original, now)];
      ok := true;
    }

    method Validate(p: Bytes, ipv6: bool) returns (ok: bool)
      requires |p| <= MAX_LENGTH
      ensures ok == Admitted(p, ipv6) && (ok ==> |p| >= 8)
      ensures ok <==>
        && |p| >= 8 && p[0] == (if ipv6 then 128 else 8) && p[1] == 0
        && (ipv6 || (Sum(p) > 0 && Sum(p) % 65535 == 0))
    {
      if |p| < 8 || p[0] != RequestKind(ipv6) || p[1] != 0 {
        return false;
      }
      ok := true;
      if !ipv6 {
        var c := Checksum(p);
        ZeroIffVerifies(p);
        ResidueIsRemainder(Sum(p));
        ok := c == 0;
      }
    }

    /** `token` is the one taken. */
    method PrepareRequest(p: Bytes, ipv6: bool, now: int) returns (a: Answer, token: Token)
      requires counter.Valid() && |p| <= MAX_LENGTH
      modifies this, counter
      ensures counter.Valid()
      ensures Taken(old(State()), State(), p, ipv6, now, a.Packet?, token)
      ensures a.Packet? ==> Admitted(p, ipv6) && a == Packet(Rewritten(p, token, ipv6))
      // refused for want of room only if 2048 requests younger than a minute are outstanding
      ensures a.Packet? <==>
        && Admitted(p, ipv6)
        && (|old(pending)| < 2048
            || |map t | t in old(pending) && now - old(pending)[t].created < 60_000_000_000 :: old(pending)[t]| < 2048)
    {
      assert Purged(pending, now)
          == map t | t in pending && now - pending[t].created < 60_000_000_000 :: pending[t];
      a, token := Refused, Token(0, 0);
      var valid := Validate(p, ipv6);
      if valid {
        var ok;
        ok, token := Register(TokenOf(p), now);
        if ok {
          a := Rewrite(p, token, ipv6);
        }
      }
    }

    /** Consumes the token of a reply. */
    method Consume(p: Bytes, ipv6: bool, now: int) returns (found: Found)
      modifies this
      ensures !IsEcho(p, ReplyKind(ipv6)) ==> found == NotFound && pending == old(pending)
      ensures IsEcho(p, ReplyKind(ipv6)) ==> pending == old(pending) - {TokenOf(p)}
      ensures IsEcho(p, ReplyKind(ipv6)) ==> found == Lookup(old(pending), TokenOf(p), now)
    {
      if |p| < 8 || p[0] != ReplyKind(ipv6) || p[1] != 0 {
        return NotFound;
      }
      var token := TokenOf(p);
      if token !in pending {
        assert pending - {token} == pending;
        return NotFound;
      }
      var entry := pending[token];
      pending := pending - {token};
      if now - entry.created >= MINUTE {
        return NotFound;
      }
      return Found(entry.original);
    }

    /** What a reply is answered with, from the requests that are outstanding. */
    ghost function Reply(o: Outstanding, p: Bytes, ipv6: bool, now: int): Answer
    {
      if !IsEcho(p, ReplyKind(ipv6)) then Refused
      else
        match Lookup(o, TokenOf(p), now)
        case NotFound => Refused
        case Found(original) => Packet(Rewritten(p, original, ipv6))
    }

    /** A raw reply is stripped and answered; its token is consumed. */
    method RestoreReply(raw: Bytes, ipv6: bool, now: int) returns (a: Answer, s: Answer)
      requires |raw| <= MAX_LENGTH
      modifies this
      ensures s == Stripped(raw, ipv6)
      ensures s.Refused? ==> a == Refused && pending == old(pending)
      ensures s.Packet? ==> a == Reply(old(pending), s.data, ipv6, now)
      // answered exactly when it is an echo reply to a request younger than a minute, with that request's pair
      ensures a.Packet? <==>
        && s.Packet? && |s.data| >= 8 && s.data[0] == (if ipv6 then 129 else 0) && s.data[1] == 0
        && TokenOf(s.data) in old(pending) && now - old(pending)[TokenOf(s.data)].created < 60_000_000_000
      ensures a.Packet? ==> a.data == Rewritten(s.data, old(pending)[TokenOf(s.data)].original, ipv6)
      ensures s.Packet? ==>
        pending == if IsEcho(s.data, ReplyKind(ipv6)) then old(pending) - {TokenOf(s.data)} else old(pending)
    {
      a := Refused;
      s := Strip(raw, ipv6);
      if s.Packet? {
        a := Restore(s.data, ipv6, now);
      }
    }

    method Strip(raw: Bytes, ipv6: bool) returns (s: Answer)
      ensures s == Stripped(raw, ipv6) && (s.Packet? ==> |s.data| <= |raw|)
    {
      if |raw| < 8 {
        return Refused;
      }
      if !ipv6 && raw[0] / 16 == 4 {
        var size := raw[0] % 16 * 4;
        if |raw| < 28 || size < 20 || size + 8 > |raw| || raw[9] != 1 {
          return Refused;
        }
        return Packet(raw[size..]);
      }
      if ipv6 && raw[0] / 16 == 6 {
        if |raw| < 48 || raw[6] != 58 {
          return Refused;
        }
        return Packet(raw[40..]);
      }
      return Packet(raw);
    }

    method Restore(p: Bytes, ipv6: bool, now: int) returns (a: Answer)
      requires |p| <= MAX_LENGTH
      modifies this
      ensures a == Reply(old(pending), p, ipv6, now)
      ensures pending == if IsEcho(p, ReplyKind(ipv6)) then old(pending) - {TokenOf(p)} else old(pending)
    {
      a := Refused;
      var found := Consume(p, ipv6, now);
      if found.Found? {
        a := Rewrite(p, found.original, ipv6);
      }
    }

    method Rewrite(p: Bytes, token: Token, ipv6: bool) returns (a: Answer)
      requires 8 <= |p| <= MAX_LENGTH
      ensures a == Packet(Rewritten(p, token, ipv6))
    {
      if ipv6 {
        var c := 0;
        if Field(p) != 0 {
          c := Adjust(Field(p), TokenOf(p), token);
        }
        a := Packet(With(p, c, token));
      } else {
        var c := Checksum(With(p, 0, token));
        a := Packet(With(p, c, token));
      }
    }

    method Adjust(field: word, a: Token, b: Token) returns (c: word)
      ensures c == Adjusted(field, a, b)
    {
      var sum := (ONES - field) + (ONES - a.id) + (ONES - a.number);
      sum := sum + b.id;
      sum := sum + b.number;
      c := Complement(sum);
    }
  }
}
