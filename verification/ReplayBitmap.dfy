/** The per-session anti-replay bitmap of internal/frame/frame.go: 2048 slots, one per sequence
    number modulo the window size, packed in 32 words.  The specification is the plain set of numbers
    accepted so far; the class refines it, including the multi-word loop that clears skipped slots. */
module ReplayBitmap {

  const WINDOW := 2048
  const WORDS := 32
  const WORD_BITS := 64
  const UINT64_LIMIT := 0x1_0000_0000_0000_0000

  type Seq64 = n: nat | n < UINT64_LIMIT

  // ---------------------------------------------------------------- specification

  ghost predicate IsHighest(accepted: set<Seq64>, h: Seq64) {
    h in accepted && forall s :: s in accepted ==> s <= h
  }

  /** The number is new and it is not 2048 or more below some number already accepted. */
  predicate Admits(accepted: set<Seq64>, s: Seq64) {
    s !in accepted && forall h :: h in accepted ==> h < s + WINDOW
  }

  ghost function After(accepted: set<Seq64>, s: Seq64): set<Seq64> {
    if Admits(accepted, s) then accepted + {s} else accepted
  }

  ghost function AfterAll(accepted: set<Seq64>, calls: seq<Seq64>): set<Seq64> {
    if calls == [] then accepted
    else After(AfterAll(accepted, calls[..|calls| - 1]), calls[|calls| - 1])
  }

  /** Whether the last call of a run returns true. */
  ghost predicate LastReturnsTrue(calls: seq<Seq64>)
    requires calls != []
  {
    Admits(AfterAll({}, calls[..|calls| - 1]), calls[|calls| - 1])
  }

  lemma {:induction false} AcceptedStaysAccepted(calls: seq<Seq64>, i: nat)
    requires 0 < i <= |calls|
    requires LastReturnsTrue(calls[..i])
    ensures calls[i - 1] in AfterAll({}, calls)
    decreases |calls|
  {
    var n := |calls|;
    if i == n {
      assert calls[..i] == calls;
    } else {
      assert calls[..n - 1][..i] == calls[..i];
      AcceptedStaysAccepted(calls[..n - 1], i);
    }
  }

  /** Over every call sequence of a window, no number is accepted twice. */
  lemma NeverAcceptedTwice(calls: seq<Seq64>, i: nat, j: nat)
    requires 0 < i < j <= |calls|
    requires calls[i - 1] == calls[j - 1]
    requires LastReturnsTrue(calls[..i])
    ensures !LastReturnsTrue(calls[..j])
  {
    var before := calls[..j][..j - 1];
    assert before[..i] == calls[..i];
    AcceptedStaysAccepted(before, i);
  }

  // ---------------------------------------------------------------- words

  /** A 64-bit word, as the set of positions of its one bits. */
  type Word = set<nat>

  /** The word with its n lowest bits set. */
  function Ones(n: nat): (w: Word)
    ensures forall i: nat :: i in w <==> i < n
  {
    if n == 0 then {} else Ones(n - 1) + {n - 1}
  }

  function ShiftLeft(w: Word, k: nat): Word { set i | i in w && i + k < WORD_BITS :: i + k }

  function SlotWord(s: nat): nat { s % WINDOW / WORD_BITS }

  function SlotBit(s: nat): nat { s % WINDOW % WORD_BITS }

  lemma SameSlot(s: nat, t: nat)
    requires s <= t < s + WINDOW
    requires SlotWord(s) == SlotWord(t) && SlotBit(s) == SlotBit(t)
    ensures s == t
  {
    assert s % WINDOW == SlotWord(s) * WORD_BITS + SlotBit(s);
    assert t % WINDOW == SlotWord(t) * WORD_BITS + SlotBit(t);
    assert t - s == WINDOW * (t / WINDOW - s / WINDOW);
  }

  /** Inside one word, the following numbers occupy the following bits. */
  lemma NextSlots(s: nat, d: nat)
    requires SlotBit(s) + d < WORD_BITS
    ensures SlotWord(s + d) == SlotWord(s) && SlotBit(s + d) == SlotBit(s) + d
  {
    var slot := s % WINDOW;
    assert slot == SlotWord(s) * WORD_BITS + SlotBit(s);
    assert SlotWord(s) < WORDS;
    assert slot + d < WINDOW;
    assert s + d == s / WINDOW * WINDOW + (slot + d);
    ModOfSum(s / WINDOW, slot + d);
  }

  lemma ModOfSum(q: nat, r: nat)
    requires r < WINDOW
    ensures (q * WINDOW + r) % WINDOW == r
  {
  }

  // ---------------------------------------------------------------- implementation

  class ReplayWindow {
    var initialized: bool
    var highest: Seq64
    const bits: array<Word>
    ghost var accepted: set<Seq64>

    ghost predicate Marked(s: nat)
      requires bits.Length == WORDS
      reads this, bits
    {
      SlotBit(s) in bits[SlotWord(s)]
    }

    ghost predicate Valid()
      reads this, bits
    {
      && bits.Length == WORDS
      && (initialized <==> accepted != {})
      && (!initialized ==> forall i | 0 <= i < WORDS :: bits[i] == {})
      && (initialized ==>
            && IsHighest(accepted, highest)
            && forall s: Seq64 | highest < s + WINDOW && s <= highest :: Marked(s) <==> s in accepted)
    }

    constructor ()
      ensures Valid() && accepted == {} && fresh(bits)
    {
      initialized, highest, accepted := false, 0, {};
      bits := new Word[WORDS](_ => {});
    }

    method Accept(sequence: Seq64) returns (ok: bool)
      requires Valid()
      modifies this, bits
      ensures Valid()
      ensures ok <==> Admits(old(accepted), sequence)
      ensures accepted == After(old(accepted), sequence)
      ensures ok <==> sequence !in old(accepted) && forall h :: h in old(accepted) ==> h < sequence + 2048
      ensures accepted == if ok then old(accepted) + {sequence} else old(accepted)
    {
      if !initialized {
        initialized, highest, accepted := true, sequence, {sequence};
        Mark(sequence);
        return true;
      }
      if sequence > highest {
        var advance := sequence - highest;
        if advance >= WINDOW {
          ClearAll();
        } else {
          ClearSlots(highest + 1, advance - 1);
        }
        AdvanceFrame(sequence);
        highest, accepted := sequence, accepted + {sequence};
        Mark(sequence);
        return true;
      }
      if highest - sequence >= WINDOW {
        return false;
      }
      if SlotBit(sequence) in bits[SlotWord(sequence)] {
        assert Marked(sequence);
        return false;
      }
      assert !Marked(sequence);
      accepted := accepted + {sequence};
      Mark(sequence);
      return true;
    }

    /** After the clearing, the marks of the new window below the new highest number are exactly
        the accepted numbers. */
    twostate lemma AdvanceFrame(sequence: Seq64)
      requires bits.Length == WORDS && initialized && highest < sequence
      requires old(Valid()) && unchanged(this)
      requires if sequence - highest >= WINDOW then forall i | 0 <= i < WORDS :: bits[i] == {}
               else forall s: nat :: s <= highest < s + WINDOW && sequence < s + WINDOW ==>
                      (Marked(s) <==> old(Marked(s)))
      requires forall s: nat :: highest < s < sequence && sequence < s + WINDOW ==> !Marked(s)
      ensures forall s: Seq64 | sequence < s + WINDOW && s < sequence :: Marked(s) <==> s in accepted
    {
    }

    method Mark(sequence: Seq64)
      requires bits.Length == WORDS
      modifies bits
      ensures Marked(sequence)
      ensures forall s: nat {:trigger Marked(s)} ::
                s != sequence && s < sequence + WINDOW && sequence < s + WINDOW ==> (Marked(s) <==> old(Marked(s)))
    {
      var word := SlotWord(sequence);
      bits[word] := bits[word] + ShiftLeft(Ones(1), SlotBit(sequence));
      assert Ones(1) == {0};
      assert ShiftLeft(Ones(1), SlotBit(sequence)) == {SlotBit(sequence)};
      forall s: nat | s != sequence && s < sequence + WINDOW && sequence < s + WINDOW
        ensures Marked(s) <==> old(Marked(s))
      {
        if SlotWord(s) == word && SlotBit(s) == SlotBit(sequence) {
          if s <= sequence { SameSlot(s, sequence); } else { SameSlot(sequence, s); }
        }
      }
    }

    method ClearAll()
      requires bits.Length == WORDS
      modifies bits
      ensures forall i | 0 <= i < WORDS :: bits[i] == {}
    {
      for i := 0 to WORDS
        invariant forall k | 0 <= k < i :: bits[k] == {}
      {
        bits[i] := {};
      }
    }

    /** Clears `count` consecutive slots, up to a whole word at a time; the slots of the numbers
        that precede them in the window keep their marks. */
    method ClearSlots(sequence: nat, count: nat)
      requires bits.Length == WORDS && count < WINDOW
      modifies bits
      ensures forall s: nat {:trigger Marked(s)} :: sequence <= s < sequence + count ==> !Marked(s)
      ensures forall s: nat {:trigger Marked(s)} ::
                s < sequence && sequence + count <= s + WINDOW ==> (Marked(s) <==> old(Marked(s)))
    {
      var from, left := sequence, count;
      while left > 0
        invariant from + left == sequence + count && sequence <= from
        invariant forall s: nat {:trigger Marked(s)} :: sequence <= s < from ==> !Marked(s)
        invariant forall s: nat {:trigger Marked(s)} ::
                    s < sequence && sequence + count <= s + WINDOW ==> (Marked(s) <==> old(Marked(s)))
      {
        var word, bit := SlotWord(from), SlotBit(from);
        var chunk := if left < WORD_BITS - bit then left else WORD_BITS - bit;
        var mask := Ones(chunk);
        ghost var before := bits[word];
        label L:
        bits[word] := bits[word] - ShiftLeft(mask, bit);
        forall s: nat | from <= s < from + chunk
          ensures !Marked(s)
        {
          NextSlots(from, s - from);
          assert s - from in mask;
        }
        forall s: nat | s < from && from + left <= s + WINDOW
          ensures Marked(s) <==> old@L(Marked(s))
        {
          if SlotWord(s) == word && bit <= SlotBit(s) < bit + chunk {
            var t := from + (SlotBit(s) - bit);
            NextSlots(from, SlotBit(s) - bit);
            SameSlot(s, t);
          }
        }
        from, left := from + chunk, left - chunk;
      }
    }
  }
}
