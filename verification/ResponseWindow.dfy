/** The client's sparse response window of internal/plainudp/response_replay.go.

    The reference definition decides from the full history of accepted identities: the last 2048 are
    remembered exactly, older ones only through the largest sequence number of their timestamp, and
    timestamps more than 60 s behind the newest not at all.  The class, with its ring, set, floors and
    retirement mark, is proved to decide the same on every call. */
module ResponseWindow {

  const SIZE := 2048
  const SPAN := 60

  datatype ResponseId = ResponseId(timestamp: nat, sequence: nat)

  type History = seq<ResponseId>

  // ---------------------------------------------------------------- reference definition

  function Newest(h: History): nat {
    if h == [] then 0
    else
      var before, last := Newest(h[..|h| - 1]), h[|h| - 1].timestamp;
      if last > before then last else before
  }

  predicate Retired(newest: nat, timestamp: nat) { newest > SPAN && timestamp < newest - SPAN }

  function Evicted(h: History): History { if |h| > SIZE then h[..|h| - SIZE] else [] }

  ghost predicate Admits(h: History, id: ResponseId) {
    && id.sequence != 0
    && !Retired(Newest(h), id.timestamp)
    && id !in h
    && forall e :: e in Evicted(h) && e.timestamp == id.timestamp ==> e.sequence < id.sequence
  }

  /** Neither accepted before nor too old. */
  ghost predicate Fresh(h: History, id: ResponseId) {
    id.sequence != 0 && !Retired(Newest(h), id.timestamp) && id !in h
  }

  ghost function After(h: History, id: ResponseId): History { if Admits(h, id) then h + [id] else h }

  ghost function AfterAll(h: History, calls: seq<ResponseId>): History {
    if calls == [] then h else After(AfterAll(h, calls[..|calls| - 1]), calls[|calls| - 1])
  }

  ghost predicate NoRepeat(h: History) {
    h == [] || (h[|h| - 1] !in h[..|h| - 1] && NoRepeat(h[..|h| - 1]))
  }

  lemma {:induction false} NoRepeatAt(h: History, i: nat, j: nat)
    requires NoRepeat(h) && i < j < |h|
    ensures h[i] != h[j]
  {
    var front := h[..|h| - 1];
    if j < |h| - 1 {
      NoRepeatAt(front, i, j);
    } else {
      assert front[i] == h[i];
    }
  }

  lemma NoRepeatMore(h: History, id: ResponseId)
    requires NoRepeat(h) && id !in h
    ensures NoRepeat(h + [id])
  {
    assert (h + [id])[..|h|] == h;
  }

  lemma {:induction false} AcceptedOnce(calls: seq<ResponseId>)
    ensures NoRepeat(AfterAll([], calls))
  {
    if calls != [] {
      var front := calls[..|calls| - 1];
      AcceptedOnce(front);
      if Admits(AfterAll([], front), calls[|calls| - 1]) {
        NoRepeatMore(AfterAll([], front), calls[|calls| - 1]);
      }
    }
  }

  /** Over any call sequence, no identity is accepted twice. */
  lemma NeverAcceptedTwice(calls: seq<ResponseId>, i: nat, j: nat)
    requires i < j < |AfterAll([], calls)|
    ensures AfterAll([], calls)[i] != AfterAll([], calls)[j]
  {
    AcceptedOnce(calls);
    NoRepeatAt(AfterAll([], calls), i, j);
  }

  // ---------------------------------------------------------------- facts about histories

  lemma {:induction false} NewestIsLargest(h: History, i: nat)
    requires i < |h|
    ensures h[i].timestamp <= Newest(h)
  {
    if i < |h| - 1 {
      assert h[..|h| - 1][i] == h[i];
      NewestIsLargest(h[..|h| - 1], i);
    }
  }

  lemma NewestOfMore(h: History, id: ResponseId)
    ensures Newest(h + [id]) == if id.timestamp > Newest(h) then id.timestamp else Newest(h)
  {
    assert (h + [id])[..|h|] == h;
  }

  /** The decision, over a history split into its evicted and its remembered part. */
  lemma AdmitsSplit(evicted: History, recent: History, id: ResponseId)
    requires |recent| <= SIZE && (evicted != [] ==> |recent| == SIZE)
    ensures Admits(evicted + recent, id) <==>
              && id.sequence != 0 && !Retired(Newest(evicted + recent), id.timestamp)
              && id !in recent
              && forall e :: e in evicted && e.timestamp == id.timestamp ==> e.sequence < id.sequence
  {
    assert Evicted(evicted + recent) == evicted;
  }

  lemma {:induction false} NewestIsSome(h: History)
    requires h != [] && Newest(h) > 0
    ensures exists i :: 0 <= i < |h| && h[i].timestamp == Newest(h)
  {
    var front := h[..|h| - 1];
    if h[|h| - 1].timestamp < Newest(h) {
      NewestIsSome(front);
      var i :| 0 <= i < |front| && front[i].timestamp == Newest(front);
      assert h[i] == front[i];
    }
  }

  /** The sequence is not zero, the identity was not accepted before, no accepted one is more than 60 s
      newer, and of those of its timestamp accepted before the last 2048 none has a sequence as large. */
  ghost predicate Acceptable(h: History, id: ResponseId) {
    && id.sequence != 0 && id !in h
    && (forall i :: 0 <= i < |h| ==> h[i].timestamp <= id.timestamp + 60)
    && (forall i :: 0 <= i < |h| - 2048 && h[i].timestamp == id.timestamp ==> h[i].sequence < id.sequence)
  }

  lemma AdmitsMeans(h: History, id: ResponseId)
    ensures Admits(h, id) <==> Acceptable(h, id)
  {
    forall i | 0 <= i < |h| ensures h[i].timestamp <= Newest(h) {
      NewestIsLargest(h, i);
    }
    if Retired(Newest(h), id.timestamp) {
      NewestIsSome(h);
    }
    var old' := Evicted(h);
    assert forall i :: 0 <= i < |old'| ==> old'[i] == h[i];
    assert forall i :: 0 <= i < |h| - 2048 ==> h[i] in old';
  }

  /** A newer timestamp than any seen is always admissible. */
  lemma NewerIsAdmitted(h: History, id: ResponseId)
    requires id.sequence != 0 && id.timestamp > Newest(h)
    ensures Admits(h, id)
  {
    forall i | 0 <= i < |h| ensures h[i].timestamp < id.timestamp { NewestIsLargest(h, i); }
    assert forall e :: e in Evicted(h) ==> e in h;
  }

  // ---------------------------------------------------------------- implementation

  class ResponseReplayWindow {
    var seen: set<ResponseId>
    var ring: seq<ResponseId>
    var next: nat
    var floors: map<nat, nat>
    var maxTimestamp: nat
    var retiredThrough: nat
    var hasRetired: bool
    ghost var evicted: History
    ghost var recent: History

    ghost function Accepted(): History
      reads this
    {
      evicted + recent
    }

    ghost predicate RingHolds()
      reads this
    {
      && next <= |ring| <= SIZE && (next > 0 ==> next < |ring| == SIZE)
      && (evicted != [] ==> |ring| == SIZE)
      && recent == Rotated(ring, next)
      && (forall id :: id in seen <==> id in recent)
    }

    /** Each floor is the largest evicted sequence number of its timestamp. */
    ghost predicate FloorsHold(newest: nat)
      reads this
    {
      && (forall t :: t in floors ==> !Retired(newest, t) && ResponseId(t, floors[t]) in evicted)
      && (forall e :: e in evicted && !Retired(newest, e.timestamp) ==>
            e.timestamp in floors && e.sequence <= floors[e.timestamp])
    }

    ghost predicate RetirementHolds(newest: nat)
      reads this
    {
      && maxTimestamp == newest
      && (hasRetired <==> newest > SPAN)
      && (hasRetired ==> retiredThrough == newest - SPAN - 1)
    }

    ghost predicate ValidFor(newest: nat)
      reads this
    {
      NoRepeat(Accepted()) && RingHolds() && FloorsHold(newest) && RetirementHolds(newest)
    }

    ghost predicate Valid()
      reads this
    {
      ValidFor(Newest(Accepted()))
    }

    constructor ()
      ensures Valid() && Accepted() == []
    {
      seen, ring, next, floors, evicted, recent := {}, [], 0, map[], [], [];
      maxTimestamp, retiredThrough, hasRetired := 0, 0, false;
    }

    method Accept(sequence: nat, timestamp: nat) returns (ok: bool)
      requires Valid()
      modifies this
      ensures Valid()
      ensures ok <==> Admits(old(Accepted()), ResponseId(timestamp, sequence))
      ensures Accepted() == After(old(Accepted()), ResponseId(timestamp, sequence))
      ensures ok <==> Acceptable(old(Accepted()), ResponseId(timestamp, sequence))
      ensures Fresh(old(Accepted()), ResponseId(timestamp, sequence)) ==>
                (!ok <==> exists e :: e in old(evicted) && e.timestamp == timestamp && e.sequence >= sequence)
    {
      var id := ResponseId(timestamp, sequence);
      AdmitsSplit(evicted, recent, id);
      AdmitsMeans(Accepted(), id);
      if sequence == 0 || (hasRetired && timestamp <= retiredThrough) { return false; }
      NewestOfMore(Accepted(), id);
      if timestamp > maxTimestamp {
        NewerIsAdmitted(Accepted(), id);
        Retire(timestamp);
      }
      if id in seen { return false; }
      if timestamp in floors && sequence <= floors[timestamp] {
        assert ResponseId(timestamp, floors[timestamp]) in evicted;
        return false;
      }
      assert forall e :: e in evicted && e.timestamp == timestamp ==> e.sequence < sequence;
      Remember(id);
      return true;
    }

    /** The floors of retired timestamps are deleted. */
    method Retire(timestamp: nat)
      requires Valid() && timestamp > maxTimestamp
      modifies this`maxTimestamp, this`retiredThrough, this`hasRetired, this`floors
      ensures ValidFor(timestamp)
    {
      maxTimestamp := timestamp;
      if timestamp > SPAN {
        retiredThrough, hasRetired := timestamp - SPAN - 1, true;
        DropFloors();
      }
    }

    method DropFloors()
      modifies this`floors
      ensures floors == map t | t in old(floors) && t > retiredThrough :: old(floors)[t]
    {
      var left := floors.Keys;
      while left != {}
        invariant left <= floors.Keys <= old(floors).Keys
        invariant forall t :: t in floors ==> floors[t] == old(floors)[t]
        invariant forall t :: t in old(floors) && t !in left ==> (t in floors <==> t > retiredThrough)
      {
        var t :| t in left;
        if t <= retiredThrough { floors := floors - {t}; }
        left := left - {t};
      }
    }

    method Remember(id: ResponseId)
      requires ValidFor(maxTimestamp) && id !in Accepted()
      modifies this
      ensures ValidFor(old(maxTimestamp)) && Accepted() == old(Accepted()) + [id]
    {
      NoRepeatMore(Accepted(), id);
      if |ring| < SIZE {
        assert Rotated(ring + [id], 0) == Rotated(ring, 0) + [id];
        assert evicted + (recent + [id]) == Accepted() + [id];
        ring, recent, seen := ring + [id], recent + [id], seen + {id};
      } else {
        OldestIsUnique(evicted, recent);
        RaiseFloor(ring[next]);
        assert evicted + recent + [id] == (evicted + [recent[0]]) + (recent[1..] + [id]);
        Turn(id);
      }
    }

    /** The newest identity takes the place of the oldest, in the ring and in the set. */
    method Turn(id: ResponseId)
      requires RingHolds() && |ring| == SIZE && recent[0] !in recent[1..]
      modifies this`ring, this`next, this`seen, this`recent, this`evicted
      ensures RingHolds() && |ring| == SIZE
      ensures recent == old(recent)[1..] + [id] && evicted == old(evicted) + [old(recent)[0]]
    {
      RingTurns(ring, next, id);
      RecentMembers(recent, id);
      evicted, recent := evicted + [recent[0]], recent[1..] + [id];
      seen := seen - {ring[next]};
      ring := ring[next := id];
      next := (next + 1) % SIZE;
      seen := seen + {id};
    }

    /** The evicted identity leaves its sequence number behind, unless its timestamp is retired. */
    method RaiseFloor(gone: ResponseId)
      requires FloorsHold(maxTimestamp) && RetirementHolds(maxTimestamp)
      modifies this`floors
      ensures forall t :: t in floors ==>
                !Retired(maxTimestamp, t) && (ResponseId(t, floors[t]) in evicted || ResponseId(t, floors[t]) == gone)
      ensures forall e :: (e in evicted || e == gone) && !Retired(maxTimestamp, e.timestamp) ==>
                e.timestamp in floors && e.sequence <= floors[e.timestamp]
    {
      if !hasRetired || gone.timestamp > retiredThrough {
        var floor := if gone.timestamp in floors then floors[gone.timestamp] else 0;
        floors := floors[gone.timestamp := if floor > gone.sequence then floor else gone.sequence];
      }
    }
  }

  lemma OldestIsUnique(evicted: History, recent: History)
    requires NoRepeat(evicted + recent) && recent != []
    ensures recent[0] !in recent[1..]
  {
    forall i | 0 <= i < |recent[1..]| ensures recent[1..][i] != recent[0] {
      NoRepeatAt(evicted + recent, |evicted|, |evicted| + 1 + i);
    }
  }

  lemma RecentMembers(recent: History, id: ResponseId)
    requires recent != [] && recent[0] !in recent[1..]
    ensures forall x :: x in recent[1..] + [id] <==> (x in recent && x != recent[0]) || x == id
  {
    assert recent == [recent[0]] + recent[1..];
  }

  /** The contents of a full ring, oldest first. */
  function Rotated(ring: seq<ResponseId>, next: nat): seq<ResponseId>
    requires next <= |ring|
  {
    ring[next..] + ring[..next]
  }

  /** Overwriting the oldest slot and moving on drops the oldest and appends the newest. */
  lemma RingTurns(ring: seq<ResponseId>, next: nat, id: ResponseId)
    requires next < |ring| == SIZE
    ensures Rotated(ring[next := id], (next + 1) % SIZE) == Rotated(ring, next)[1..] + [id]
  {
    var turned := ring[next := id];
    assert turned[next + 1..] == ring[next + 1..];
    assert turned[..next + 1] == ring[..next] + [id];
    assert Rotated(ring, next)[1..] == ring[next + 1..] + ring[..next];
    if next + 1 == SIZE {
      assert Rotated(turned, 0) == turned == turned[..next + 1];
    }
  }

  // ---------------------------------------------------------------- bounds

  lemma {:induction false} IntervalSize(s: set<nat>, low: int, high: int)
    requires forall t :: t in s ==> low < t <= high
    requires low <= high
    ensures |s| <= high - low
    decreases high - low
  {
    if low == high {
      assert s == {};
    } else {
      IntervalSize(s - {high}, low, high - 1);
      assert |s| <= |s - {high}| + 1;
    }
  }

  lemma {:induction false} DistinctSize(h: History)
    requires NoRepeat(h)
    ensures |set id | id in h| == |h|
  {
    if h != [] {
      var front := h[..|h| - 1];
      DistinctSize(front);
      assert (set id | id in h) == (set id | id in front) + {h[|h| - 1]};
    }
  }

  lemma {:induction false} NoRepeatTail(h: History, k: nat)
    requires NoRepeat(h) && k <= |h|
    ensures NoRepeat(h[k..])
  {
    if k < |h| {
      NoRepeatTail(h[..|h| - 1], k);
      assert h[k..][..|h| - k - 1] == h[..|h| - 1][k..];
      assert h[..|h| - 1] == h[..k] + h[..|h| - 1][k..];
    }
  }

  /** The set mirrors the ring, and both stay within 2048. */
  lemma SeenIsRing(w: ResponseReplayWindow)
    requires w.Valid()
    ensures forall id :: id in w.seen <==> id in w.ring
    ensures |w.seen| == |w.ring| <= SIZE
  {
    assert w.ring == w.ring[..w.next] + w.ring[w.next..];
    NoRepeatTail(w.Accepted(), |w.evicted|);
    assert w.Accepted()[|w.evicted|..] == w.recent;
    DistinctSize(w.recent);
    assert w.seen == (set id | id in w.recent);
  }

  /** At most 61 floors are kept. */
  lemma FloorsBounded(w: ResponseReplayWindow)
    requires w.Valid()
    ensures |w.floors| <= SPAN + 1
  {
    var h := w.Accepted();
    var newest := Newest(h);
    forall t | t in w.floors ensures t <= newest {
      var e := ResponseId(t, w.floors[t]);
      assert e in h;
      var i :| 0 <= i < |h| && h[i] == e;
      NewestIsLargest(h, i);
    }
    if newest > SPAN {
      IntervalSize(w.floors.Keys, newest - SPAN - 1, newest);
    } else {
      IntervalSize(w.floors.Keys, -1, SPAN);
    }
    assert |w.floors| == |w.floors.Keys|;
  }
}
