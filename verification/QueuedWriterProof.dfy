/** Inductive invariants of connio.Writer over every interleaving, and what follows from them. */
module QueuedWriterProof {
  import opened QueuedWriter

  type Pcs = map<nat, CallerPc>

  // ---------------------------------------------------------------- the gate

  predicate CallerGated(pc: CallerPc) { !pc.Acquiring? && !pc.Returned? && !pc.CloseAcquiring? }

  predicate WorkerGated(w: WorkerPc) { w.Draining? || w.DrainHolding? || w.DrainSent? || w.GiveGate? }

  /** Tokens in the gate and holders of the gate add up to one. */
  ghost predicate GateOk(pcs: Pcs, w: WorkerPc, g: Gate) {
    && g.tokens == (if g.holder.Nobody? then 1 else 0)
    && (forall c :: c in pcs ==> (CallerGated(pcs[c]) <==> g.holder == CallerHolds(c)))
    && (g.holder.CallerHolds? ==> g.holder.c in pcs)
    && (WorkerGated(w) <==> g.holder.WorkerHolds?)
  }

  /** The one call inside the gate, if any, and where it is. */
  datatype Inside = Out | In(c: nat, pc: CallerPc)

  function InsideOf(pcs: Pcs, g: Gate): Inside {
    if g.holder.CallerHolds? && g.holder.c in pcs then In(g.holder.c, pcs[g.holder.c]) else Out
  }

  // ---------------------------------------------------------------- requests

  predicate Live(st: Store, r: nat) { r in st && st[r].refs > 0 }

  function InsideRef(i: Inside): Ref { if i.In? then CallerRef(i.pc) else NoRef }

  function InsideShare(i: Inside, c: nat, r: nat): nat {
    if InsideRef(i) != Ref(r) || i.c != c then 0 else if i.pc.Looping? || i.pc.Submitting? then 2 else 1
  }

  function WorkerShare(w: WorkerPc, queue: Ref, r: nat): nat {
    if queue == Ref(r) || WorkerRef(w) == Ref(r) then 1 else 0
  }

  /** Whoever refers to a request refers to one that is out of the pool and is its own. */
  ghost predicate ReferencesOk(i: Inside, w: WorkerPc, queue: Ref, st: Store) {
    && (InsideRef(i).Ref? ==> Live(st, InsideRef(i).id) && st[InsideRef(i).id].caller == i.c)
    && (queue.Ref? ==> Live(st, queue.id) && WorkerRef(w) != queue)
    && (WorkerRef(w).Ref? ==> Live(st, WorkerRef(w).id))
    && (i.In? && i.pc.Aborting? ==> WorkerShare(w, queue, i.pc.req) == 0)
  }

  /** The reference count of a request is the number of references to it, never more than two. */
  ghost predicate CountsOk(i: Inside, w: WorkerPc, queue: Ref, st: Store) {
    forall r :: r in st ==> st[r].refs == InsideShare(i, st[r].caller, r) + WorkerShare(w, queue, r) <= 2
  }

  /** A request works for the call that took it last, so no two work for the same call. */
  ghost predicate OwnersOk(st: Store, lease: map<nat, nat>) {
    forall r :: r in st && st[r].refs > 0 ==>
      st[r].caller in lease && lease[st[r].caller] == r
  }

  ghost predicate BytesOk(st: Store, payload: map<nat, Chunk>) {
    forall r :: r in st && st[r].refs > 0 ==>
      st[r].caller in payload && st[r].data == payload[st[r].caller]
  }

  // ---------------------------------------------------------------- results

  predicate Unanswered(w: WorkerPc, queue: Ref, r: nat) {
    queue == Ref(r) || (WorkerRef(w) == Ref(r) && !w.Sent? && !w.DrainSent?)
  }

  /** Admitted, and not given to the transport. */
  predicate Untouched(w: WorkerPc, queue: Ref, r: nat) { queue == Ref(r) || w == Holding(r) || w == DrainHolding(r) }

  function Got(delivered: map<nat, nat>, c: nat): nat { if c in delivered then delivered[c] else 0 }

  /** The worker answers each request once, with what the transport took of it. */
  ghost predicate AnswersOk(i: Inside, w: WorkerPc, queue: Ref, st: Store, delivered: map<nat, nat>) {
    && (forall r :: r in st && st[r].refs > 0 && st[r].result.Result? ==>
          && !Unanswered(w, queue, r)
          && st[r].result.n == Got(delivered, st[r].caller)
          && InsideShare(i, st[r].caller, r) < 2)
    && (w.Wrote? && w.req in st ==> w.n == Got(delivered, st[w.req].caller))
  }

  ghost predicate FreshOk(w: WorkerPc, queue: Ref, st: Store, delivered: map<nat, nat>) {
    forall r :: r in st && st[r].refs > 0 && Untouched(w, queue, r) ==> st[r].caller !in delivered
  }

  // ---------------------------------------------------------------- order and claims

  predicate Reading(w: WorkerPc) {
    w.Unstarted? || w.Idle? || w.Holding? || w.Writing? || w.Wrote? || (w.Sent? && !w.stop)
  }

  function CallerOf(st: Store, r: nat): nat { if r in st then st[r].caller else 0 }

  /** Admitted but not yet given to the transport, in order. */
  function Pending(w: WorkerPc, queue: Ref, st: Store): seq<nat> {
    (if w.Holding? then [CallerOf(st, w.req)] else []) + (if queue.NoRef? then [] else [CallerOf(st, queue.id)])
  }

  ghost predicate OrderOk(w: WorkerPc, queue: Ref, st: Store, log: Log) {
    && log.handed <= log.admitted
    && (Reading(w) ==> log.admitted == log.handed + Pending(w, queue, st))
    && (w.Writing? ==> CallerOf(st, w.req) in log.handed)
  }

  /** The transport was given the callers' own bytes, and took no more than that. */
  ghost predicate WireOk(log: Log) {
    && |log.wire| == |log.handed|
    && (forall k :: 0 <= k < |log.handed| ==> log.handed[k] in log.payload && log.wire[k] == log.payload[log.handed[k]])
    && (forall c :: c in log.delivered ==>
          c in log.admitted && c in log.payload && log.delivered[c] <= |log.payload[c]|)
    && (forall c :: c in log.handed ==> c in log.admitted)
  }

  /** The transport may still take bytes of this request. */
  predicate InFlight(w: WorkerPc, queue: Ref, r: nat) { queue == Ref(r) || w == Holding(r) || w == Writing(r) }

  /** What the call inside has decided to return. */
  predicate Decided(i: Inside) { i.In? && (i.pc.Leaving? || i.pc.GateBack?) }

  /** No call reports less than the transport took of its chunk, */
  ghost predicate ReportsOk(i: Inside, log: Log) {
    && (forall c :: c in log.reports ==> log.reports[c] >= Got(log.delivered, c))
    && (Decided(i) ==> i.pc.n >= Got(log.delivered, i.c))
  }

  /** or may still take of it. */
  ghost predicate FlightsOk(i: Inside, w: WorkerPc, queue: Ref, st: Store, reports: map<nat, nat>) {
    forall r :: r in st && st[r].refs > 0 && InFlight(w, queue, r) ==>
      && (st[r].caller in reports ==> reports[st[r].caller] == |st[r].data|)
      && (Decided(i) && i.c == st[r].caller ==> i.pc.n == |st[r].data|)
  }

  // ---------------------------------------------------------------- shutdown, and the calls outside

  predicate Drained(w: WorkerPc) { WorkerGated(w) || w.Exiting? || w.Exited? }

  ghost predicate StopOk(i: Inside, w: WorkerPc, queue: Ref, f: Flags) {
    && !f.panicked
    && (f.stopping <==> w.WaitGate? || Drained(w))
    && (i.In? && i.pc.Submitting? ==> !Drained(w))
    && (w.GiveGate? || w.Exiting? || w.Exited? ==> queue.NoRef?)
    && (i.In? && (i.pc.Checked? || i.pc.Looping? || i.pc.Submitting?) ==> !f.fin)
  }

  predicate BeforeLease(pc: CallerPc) { pc.Acquiring? || pc.Gated? || pc.Checked? }

  predicate BeforeSubmit(pc: CallerPc) { BeforeLease(pc) || pc.Looping? || pc.Submitting? || pc.Aborting? }

  ghost predicate PcOk(c: nat, pc: CallerPc, log: Log) {
    && (BeforeLease(pc) ==> c !in log.lease)
    && (BeforeSubmit(pc) ==> c !in log.admitted && c in log.payload)
    && (!pc.Returned? ==> c !in log.reports)
  }

  ghost predicate PcsOk(pcs: Pcs, log: Log) {
    && (forall c :: c in pcs ==> PcOk(c, pcs[c], log))
    && (forall c :: c in log.lease || c in log.reports || c in log.admitted ==> c in pcs)
  }

  ghost function InsideState(s: State): Inside { InsideOf(s.callers, s.gate) }

  ghost predicate Gates(s: State) { GateOk(s.callers, s.worker, s.gate) }
  ghost predicate Stops(s: State) { StopOk(InsideState(s), s.worker, s.queue, s.flags) }
  ghost predicate Calls(s: State) { PcsOk(s.callers, s.log) }
  ghost predicate Refs(s: State) { ReferencesOk(InsideState(s), s.worker, s.queue, s.store) }
  ghost predicate Counts(s: State) { CountsOk(InsideState(s), s.worker, s.queue, s.store) }
  ghost predicate Owners(s: State) { OwnersOk(s.store, s.log.lease) }
  ghost predicate Bytes(s: State) { BytesOk(s.store, s.log.payload) }
  ghost predicate Answers(s: State) { AnswersOk(InsideState(s), s.worker, s.queue, s.store, s.log.delivered) }
  ghost predicate Fresh(s: State) { FreshOk(s.worker, s.queue, s.store, s.log.delivered) }
  ghost predicate Orders(s: State) { OrderOk(s.worker, s.queue, s.store, s.log) }
  ghost predicate Wires(s: State) { WireOk(s.log) }
  ghost predicate Reports(s: State) { ReportsOk(InsideState(s), s.log) }
  ghost predicate Flights(s: State) { FlightsOk(InsideState(s), s.worker, s.queue, s.store, s.log.reports) }

  ghost predicate Inv(s: State) {
    && Gates(s) && Stops(s) && Calls(s)
    && Refs(s) && Counts(s) && Owners(s) && Bytes(s)
    && Answers(s) && Fresh(s) && Orders(s) && Wires(s) && Reports(s) && Flights(s)
  }

  lemma InitialInv(s: State)
    requires Initial(s)
    ensures Inv(s)
  {
  }

  // ---------------------------------------------------------------- every step keeps it

  /** Steps that give up a reference, that handle a request otherwise, and the rest. */
  predicate Aborts(step: CallerStep) { step.LoopAborts? || step.SubmitAborts? }

  predicate LetsGo(step: CallerStep) { step.DropSecondReference? || step.Leave? }

  predicate Handles(step: CallerStep) { step.TakeRequest? || step.Submit? || step.ResultArrives? }

  predicate Quiet(step: CallerStep) { !Aborts(step) && !LetsGo(step) && !Handles(step) }

  predicate Replying(step: WorkerStep) { step.DropsHeld? || step.Replies? || step.DrainReplies? }

  predicate Passing(step: WorkerStep) {
    step.Receives? || step.DrainReceives? || step.Writes? || step.WriteReturns?
  }

  predicate Freeing(step: WorkerStep) { step.Releases? || step.DrainReleases? }

  predicate Resting(step: WorkerStep) { !Replying(step) && !Passing(step) && !Freeing(step) }

  lemma CallerGates(s: State, c: nat, step: CallerStep)
    requires Gates(s)
    requires CallerMay(s, c, step)
    ensures Gates(CallerDoes(s, c, step))
  {
  }

  lemma WorkerGates(s: State, step: WorkerStep)
    requires Gates(s)
    requires WorkerMay(s, step)
    ensures Gates(WorkerDoes(s, step))
  {
  }

  lemma CloserGates(s: State, c: nat, step: CloserStep)
    requires Gates(s)
    requires CloserMay(s, c, step)
    ensures Gates(CloserDoes(s, c, step))
  {
  }

  lemma CallerStops(s: State, c: nat, step: CallerStep)
    requires Stops(s) && Gates(s)
    requires CallerMay(s, c, step)
    ensures Stops(CallerDoes(s, c, step))
  {
  }

  lemma WorkerStops(s: State, step: WorkerStep)
    requires Stops(s) && Gates(s)
    requires WorkerMay(s, step)
    ensures Stops(WorkerDoes(s, step))
  {
  }

  lemma CloserStops(s: State, c: nat, step: CloserStep)
    requires Stops(s) && Gates(s)
    requires CloserMay(s, c, step)
    ensures Stops(CloserDoes(s, c, step))
  {
  }

  lemma QuietCalls(s: State, c: nat, step: CallerStep)
    requires Calls(s) && Gates(s) && Owners(s) && Wires(s)
    requires CallerMay(s, c, step) && Quiet(step)
    ensures Calls(CallerDoes(s, c, step))
  {
  }

  lemma AbortsCalls(s: State, c: nat, step: CallerStep)
    requires Calls(s) && Gates(s) && Owners(s) && Wires(s)
    requires CallerMay(s, c, step) && Aborts(step)
    ensures Calls(CallerDoes(s, c, step))
  {
  }

  lemma LetsGoCalls(s: State, c: nat, step: CallerStep)
    requires Calls(s) && Gates(s) && Owners(s) && Wires(s)
    requires CallerMay(s, c, step) && LetsGo(step)
    ensures Calls(CallerDoes(s, c, step))
  {
  }

  lemma HandlesCalls(s: State, c: nat, step: CallerStep)
    requires Calls(s) && Gates(s) && Owners(s) && Wires(s)
    requires CallerMay(s, c, step) && Handles(step)
    ensures Calls(CallerDoes(s, c, step))
  {
  }

  lemma WorkerCalls(s: State, step: WorkerStep)
    requires Calls(s) && Gates(s) && Owners(s) && Wires(s)
    requires WorkerMay(s, step)
    ensures Calls(WorkerDoes(s, step))
  {
  }

  lemma CloserCalls(s: State, c: nat, step: CloserStep)
    requires Calls(s) && Gates(s) && Owners(s) && Wires(s)
    requires CloserMay(s, c, step)
    ensures Calls(CloserDoes(s, c, step))
  {
  }

  lemma QuietRefs(s: State, c: nat, step: CallerStep)
    requires Refs(s) && Gates(s) && Counts(s)
    requires CallerMay(s, c, step) && Quiet(step)
    ensures Refs(CallerDoes(s, c, step))
  {
  }

  lemma AbortsRefs(s: State, c: nat, step: CallerStep)
    requires Refs(s) && Gates(s) && Counts(s)
    requires CallerMay(s, c, step) && Aborts(step)
    ensures Refs(CallerDoes(s, c, step))
  {
  }

  lemma LetsGoRefs(s: State, c: nat, step: CallerStep)
    requires Refs(s) && Gates(s) && Counts(s)
    requires CallerMay(s, c, step) && LetsGo(step)
    ensures Refs(CallerDoes(s, c, step))
  {
  }

  lemma HandlesRefs(s: State, c: nat, step: CallerStep)
    requires Refs(s) && Gates(s) && Counts(s)
    requires CallerMay(s, c, step) && Handles(step)
    ensures Refs(CallerDoes(s, c, step))
  {
  }

  lemma RestingRefs(s: State, step: WorkerStep)
    requires Refs(s) && Gates(s) && Counts(s)
    requires WorkerMay(s, step) && Resting(step)
    ensures Refs(WorkerDoes(s, step))
  {
  }

  lemma ReplyingRefs(s: State, step: WorkerStep)
    requires Refs(s) && Gates(s) && Counts(s)
    requires WorkerMay(s, step) && Replying(step)
    ensures Refs(WorkerDoes(s, step))
  {
  }

  lemma PassingRefs(s: State, step: WorkerStep)
    requires Refs(s) && Gates(s) && Counts(s)
    requires WorkerMay(s, step) && Passing(step)
    ensures Refs(WorkerDoes(s, step))
  {
  }

  lemma FreeingRefs(s: State, step: WorkerStep)
    requires Refs(s) && Gates(s) && Counts(s)
    requires WorkerMay(s, step) && Freeing(step)
    ensures Refs(WorkerDoes(s, step))
  {
  }

  lemma CloserRefs(s: State, c: nat, step: CloserStep)
    requires Refs(s) && Gates(s) && Counts(s)
    requires CloserMay(s, c, step)
    ensures Refs(CloserDoes(s, c, step))
  {
  }

  lemma QuietCounts(s: State, c: nat, step: CallerStep)
    requires Counts(s) && Gates(s) && Refs(s)
    requires CallerMay(s, c, step) && Quiet(step)
    ensures Counts(CallerDoes(s, c, step))
  {
  }

  lemma AbortsCounts(s: State, c: nat, step: CallerStep)
    requires Counts(s) && Gates(s) && Refs(s)
    requires CallerMay(s, c, step) && Aborts(step)
    ensures Counts(CallerDoes(s, c, step))
  {
  }

  lemma LetsGoCounts(s: State, c: nat, step: CallerStep)
    requires Counts(s) && Gates(s) && Refs(s)
    requires CallerMay(s, c, step) && LetsGo(step)
    ensures Counts(CallerDoes(s, c, step))
  {
  }

  lemma SubmitCounts(s: State, c: nat, step: CallerStep)
    requires Counts(s) && Gates(s) && Refs(s) && Stops(s)
    requires CallerMay(s, c, step) && step.Submit?
    ensures Counts(CallerDoes(s, c, step))
  {
  }

  lemma HandlesCounts(s: State, c: nat, step: CallerStep)
    requires Counts(s) && Gates(s) && Refs(s) && Stops(s)
    requires CallerMay(s, c, step) && Handles(step)
    ensures Counts(CallerDoes(s, c, step))
  {
    if step.Submit? {
      SubmitCounts(s, c, step);
    }
  }

  lemma RestingCounts(s: State, step: WorkerStep)
    requires Counts(s) && Gates(s) && Refs(s)
    requires WorkerMay(s, step) && Resting(step)
    ensures Counts(WorkerDoes(s, step))
  {
  }

  lemma ReplyingCounts(s: State, step: WorkerStep)
    requires Counts(s) && Gates(s) && Refs(s)
    requires WorkerMay(s, step) && Replying(step)
    ensures Counts(WorkerDoes(s, step))
  {
  }

  lemma PassingCounts(s: State, step: WorkerStep)
    requires Counts(s) && Gates(s) && Refs(s)
    requires WorkerMay(s, step) && Passing(step)
    ensures Counts(WorkerDoes(s, step))
  {
  }

  lemma FreeingCounts(s: State, step: WorkerStep)
    requires Counts(s) && Gates(s) && Refs(s)
    requires WorkerMay(s, step) && Freeing(step)
    ensures Counts(WorkerDoes(s, step))
  {
  }

  lemma CloserCounts(s: State, c: nat, step: CloserStep)
    requires Counts(s) && Gates(s) && Refs(s)
    requires CloserMay(s, c, step)
    ensures Counts(CloserDoes(s, c, step))
  {
  }

  lemma CallerOwners(s: State, c: nat, step: CallerStep)
    requires Owners(s) && Gates(s) && Calls(s)
    requires CallerMay(s, c, step)
    ensures Owners(CallerDoes(s, c, step))
  {
  }

  lemma WorkerOwners(s: State, step: WorkerStep)
    requires Owners(s) && Gates(s) && Calls(s)
    requires WorkerMay(s, step)
    ensures Owners(WorkerDoes(s, step))
  {
  }

  lemma CloserOwners(s: State, c: nat, step: CloserStep)
    requires Owners(s) && Gates(s) && Calls(s)
    requires CloserMay(s, c, step)
    ensures Owners(CloserDoes(s, c, step))
  {
  }

  lemma CallerBytes(s: State, c: nat, step: CallerStep)
    requires Bytes(s) && Gates(s) && Calls(s) && Owners(s)
    requires CallerMay(s, c, step)
    ensures Bytes(CallerDoes(s, c, step))
  {
  }

  lemma WorkerBytes(s: State, step: WorkerStep)
    requires Bytes(s) && Gates(s) && Calls(s) && Owners(s)
    requires WorkerMay(s, step)
    ensures Bytes(WorkerDoes(s, step))
  {
  }

  lemma CloserBytes(s: State, c: nat, step: CloserStep)
    requires Bytes(s) && Gates(s) && Calls(s) && Owners(s)
    requires CloserMay(s, c, step)
    ensures Bytes(CloserDoes(s, c, step))
  {
  }

  lemma QuietAnswers(s: State, c: nat, step: CallerStep)
    requires Answers(s) && Gates(s) && Refs(s) && Counts(s) && Owners(s) && Fresh(s)
    requires CallerMay(s, c, step) && Quiet(step)
    ensures Answers(CallerDoes(s, c, step))
  {
  }

  lemma AbortsAnswers(s: State, c: nat, step: CallerStep)
    requires Answers(s) && Gates(s) && Refs(s) && Counts(s) && Owners(s) && Fresh(s)
    requires CallerMay(s, c, step) && Aborts(step)
    ensures Answers(CallerDoes(s, c, step))
  {
  }

  lemma LetsGoAnswers(s: State, c: nat, step: CallerStep)
    requires Answers(s) && Gates(s) && Refs(s) && Counts(s) && Owners(s) && Fresh(s)
    requires CallerMay(s, c, step) && LetsGo(step)
    ensures Answers(CallerDoes(s, c, step))
  {
  }

  lemma HandlesAnswers(s: State, c: nat, step: CallerStep)
    requires Answers(s) && Gates(s) && Refs(s) && Counts(s) && Owners(s) && Fresh(s)
    requires CallerMay(s, c, step) && Handles(step)
    ensures Answers(CallerDoes(s, c, step))
  {
  }

  lemma RestingAnswers(s: State, step: WorkerStep)
    requires Answers(s) && Gates(s) && Refs(s) && Counts(s) && Owners(s) && Fresh(s)
    requires WorkerMay(s, step) && Resting(step)
    ensures Answers(WorkerDoes(s, step))
  {
  }

  lemma ReplyingAnswers(s: State, step: WorkerStep)
    requires Answers(s) && Gates(s) && Refs(s) && Counts(s) && Owners(s) && Fresh(s)
    requires WorkerMay(s, step) && Replying(step)
    ensures Answers(WorkerDoes(s, step))
  {
  }

  lemma PassingAnswers(s: State, step: WorkerStep)
    requires Answers(s) && Gates(s) && Refs(s) && Counts(s) && Owners(s) && Fresh(s)
    requires WorkerMay(s, step) && Passing(step)
    ensures Answers(WorkerDoes(s, step))
  {
  }

  lemma FreeingAnswers(s: State, step: WorkerStep)
    requires Answers(s) && Gates(s) && Refs(s) && Counts(s) && Owners(s) && Fresh(s)
    requires WorkerMay(s, step) && Freeing(step)
    ensures Answers(WorkerDoes(s, step))
  {
  }

  lemma CloserAnswers(s: State, c: nat, step: CloserStep)
    requires Answers(s) && Gates(s) && Refs(s) && Counts(s) && Owners(s) && Fresh(s)
    requires CloserMay(s, c, step)
    ensures Answers(CloserDoes(s, c, step))
  {
  }

  lemma QuietFresh(s: State, c: nat, step: CallerStep)
    requires Fresh(s) && Gates(s) && Calls(s) && Refs(s) && Owners(s) && Wires(s) && Counts(s)
    requires CallerMay(s, c, step) && Quiet(step)
    ensures Fresh(CallerDoes(s, c, step))
  {
  }

  lemma AbortsFresh(s: State, c: nat, step: CallerStep)
    requires Fresh(s) && Gates(s) && Calls(s) && Refs(s) && Owners(s) && Wires(s) && Counts(s)
    requires CallerMay(s, c, step) && Aborts(step)
    ensures Fresh(CallerDoes(s, c, step))
  {
  }

  lemma LetsGoFresh(s: State, c: nat, step: CallerStep)
    requires Fresh(s) && Gates(s) && Calls(s) && Refs(s) && Owners(s) && Wires(s) && Counts(s)
    requires CallerMay(s, c, step) && LetsGo(step)
    ensures Fresh(CallerDoes(s, c, step))
  {
  }

  lemma HandlesFresh(s: State, c: nat, step: CallerStep)
    requires Fresh(s) && Gates(s) && Calls(s) && Refs(s) && Owners(s) && Wires(s) && Counts(s)
    requires CallerMay(s, c, step) && Handles(step)
    ensures Fresh(CallerDoes(s, c, step))
  {
  }

  lemma WorkerFresh(s: State, step: WorkerStep)
    requires Fresh(s) && Gates(s) && Calls(s) && Refs(s) && Owners(s) && Wires(s) && Counts(s)
    requires WorkerMay(s, step)
    ensures Fresh(WorkerDoes(s, step))
  {
  }

  lemma CloserFresh(s: State, c: nat, step: CloserStep)
    requires Fresh(s) && Gates(s) && Calls(s) && Refs(s) && Owners(s) && Wires(s) && Counts(s)
    requires CloserMay(s, c, step)
    ensures Fresh(CloserDoes(s, c, step))
  {
  }

  lemma QuietOrders(s: State, c: nat, step: CallerStep)
    requires Orders(s) && Gates(s) && Refs(s)
    requires CallerMay(s, c, step) && Quiet(step)
    ensures Orders(CallerDoes(s, c, step))
  {
  }

  lemma AbortsOrders(s: State, c: nat, step: CallerStep)
    requires Orders(s) && Gates(s) && Refs(s)
    requires CallerMay(s, c, step) && Aborts(step)
    ensures Orders(CallerDoes(s, c, step))
  {
  }

  lemma LetsGoOrders(s: State, c: nat, step: CallerStep)
    requires Orders(s) && Gates(s) && Refs(s)
    requires CallerMay(s, c, step) && LetsGo(step)
    ensures Orders(CallerDoes(s, c, step))
  {
  }

  lemma HandlesOrders(s: State, c: nat, step: CallerStep)
    requires Orders(s) && Gates(s) && Refs(s) && Stops(s)
    requires CallerMay(s, c, step) && Handles(step)
    ensures Orders(CallerDoes(s, c, step))
  {
  }

  lemma RestingOrders(s: State, step: WorkerStep)
    requires Orders(s) && Gates(s) && Refs(s)
    requires WorkerMay(s, step) && Resting(step)
    ensures Orders(WorkerDoes(s, step))
  {
  }

  lemma ReplyingOrders(s: State, step: WorkerStep)
    requires Orders(s) && Gates(s) && Refs(s)
    requires WorkerMay(s, step) && Replying(step)
    ensures Orders(WorkerDoes(s, step))
  {
  }

  lemma PassingOrders(s: State, step: WorkerStep)
    requires Orders(s) && Gates(s) && Refs(s)
    requires WorkerMay(s, step) && Passing(step)
    ensures Orders(WorkerDoes(s, step))
  {
  }

  lemma FreeingOrders(s: State, step: WorkerStep)
    requires Orders(s) && Gates(s) && Refs(s)
    requires WorkerMay(s, step) && Freeing(step)
    ensures Orders(WorkerDoes(s, step))
  {
  }

  lemma CloserOrders(s: State, c: nat, step: CloserStep)
    requires Orders(s) && Gates(s) && Refs(s)
    requires CloserMay(s, c, step)
    ensures Orders(CloserDoes(s, c, step))
  {
  }

  lemma CallerWires(s: State, c: nat, step: CallerStep)
    requires Wires(s) && Gates(s) && Calls(s) && Refs(s) && Bytes(s) && Orders(s)
    requires CallerMay(s, c, step)
    ensures Wires(CallerDoes(s, c, step))
  {
  }

  lemma WorkerWires(s: State, step: WorkerStep)
    requires Wires(s) && Gates(s) && Calls(s) && Refs(s) && Bytes(s) && Orders(s)
    requires WorkerMay(s, step)
    ensures Wires(WorkerDoes(s, step))
  {
  }

  lemma CloserWires(s: State, c: nat, step: CloserStep)
    requires Wires(s) && Gates(s) && Calls(s) && Refs(s) && Bytes(s) && Orders(s)
    requires CloserMay(s, c, step)
    ensures Wires(CloserDoes(s, c, step))
  {
  }

  lemma QuietReports(s: State, c: nat, step: CallerStep)
    requires Reports(s) && Gates(s) && Calls(s) && Refs(s) && Bytes(s) && Answers(s) && Wires(s) && Flights(s)
    requires CallerMay(s, c, step) && Quiet(step)
    ensures Reports(CallerDoes(s, c, step))
  {
  }

  lemma AbortsReports(s: State, c: nat, step: CallerStep)
    requires Reports(s) && Gates(s) && Calls(s) && Refs(s) && Bytes(s) && Answers(s) && Wires(s) && Flights(s)
    requires CallerMay(s, c, step) && Aborts(step)
    ensures Reports(CallerDoes(s, c, step))
  {
  }

  lemma LetsGoReports(s: State, c: nat, step: CallerStep)
    requires Reports(s) && Gates(s) && Calls(s) && Refs(s) && Bytes(s) && Answers(s) && Wires(s) && Flights(s)
    requires CallerMay(s, c, step) && LetsGo(step)
    ensures Reports(CallerDoes(s, c, step))
  {
  }

  lemma HandlesReports(s: State, c: nat, step: CallerStep)
    requires Reports(s) && Gates(s) && Calls(s) && Refs(s) && Bytes(s) && Answers(s) && Wires(s) && Flights(s)
    requires CallerMay(s, c, step) && Handles(step)
    ensures Reports(CallerDoes(s, c, step))
  {
  }

  lemma RestingReports(s: State, step: WorkerStep)
    requires Reports(s) && Gates(s) && Calls(s) && Refs(s) && Bytes(s) && Answers(s) && Wires(s) && Flights(s)
    requires WorkerMay(s, step) && Resting(step)
    ensures Reports(WorkerDoes(s, step))
  {
  }

  lemma ReplyingReports(s: State, step: WorkerStep)
    requires Reports(s) && Gates(s) && Calls(s) && Refs(s) && Bytes(s) && Answers(s) && Wires(s) && Flights(s)
    requires WorkerMay(s, step) && Replying(step)
    ensures Reports(WorkerDoes(s, step))
  {
  }

  lemma PassingReports(s: State, step: WorkerStep)
    requires Reports(s) && Gates(s) && Calls(s) && Refs(s) && Bytes(s) && Answers(s) && Wires(s) && Flights(s)
    requires WorkerMay(s, step) && Passing(step)
    ensures Reports(WorkerDoes(s, step))
  {
  }

  lemma FreeingReports(s: State, step: WorkerStep)
    requires Reports(s) && Gates(s) && Calls(s) && Refs(s) && Bytes(s) && Answers(s) && Wires(s) && Flights(s)
    requires WorkerMay(s, step) && Freeing(step)
    ensures Reports(WorkerDoes(s, step))
  {
  }

  lemma CloserReports(s: State, c: nat, step: CloserStep)
    requires Reports(s) && Gates(s) && Calls(s) && Refs(s) && Bytes(s) && Answers(s) && Wires(s) && Flights(s)
    requires CloserMay(s, c, step)
    ensures Reports(CloserDoes(s, c, step))
  {
  }

  lemma QuietFlights(s: State, c: nat, step: CallerStep)
    requires Flights(s) && Gates(s) && Calls(s) && Refs(s) && Owners(s) && Answers(s)
    requires CallerMay(s, c, step) && Quiet(step)
    ensures Flights(CallerDoes(s, c, step))
  {
  }

  lemma AbortsFlights(s: State, c: nat, step: CallerStep)
    requires Flights(s) && Gates(s) && Calls(s) && Refs(s) && Owners(s) && Answers(s)
    requires CallerMay(s, c, step) && Aborts(step)
    ensures Flights(CallerDoes(s, c, step))
  {
  }

  lemma LetsGoFlights(s: State, c: nat, step: CallerStep)
    requires Flights(s) && Gates(s) && Calls(s) && Refs(s) && Owners(s) && Answers(s)
    requires CallerMay(s, c, step) && LetsGo(step)
    ensures Flights(CallerDoes(s, c, step))
  {
  }

  lemma HandlesFlights(s: State, c: nat, step: CallerStep)
    requires Flights(s) && Gates(s) && Calls(s) && Refs(s) && Owners(s) && Answers(s)
    requires CallerMay(s, c, step) && Handles(step)
    ensures Flights(CallerDoes(s, c, step))
  {
  }

  lemma RestingFlights(s: State, step: WorkerStep)
    requires Flights(s) && Gates(s) && Calls(s) && Refs(s) && Owners(s) && Answers(s)
    requires WorkerMay(s, step) && Resting(step)
    ensures Flights(WorkerDoes(s, step))
  {
  }

  lemma ReplyingFlights(s: State, step: WorkerStep)
    requires Flights(s) && Gates(s) && Calls(s) && Refs(s) && Owners(s) && Answers(s)
    requires WorkerMay(s, step) && Replying(step)
    ensures Flights(WorkerDoes(s, step))
  {
  }

  lemma PassingFlights(s: State, step: WorkerStep)
    requires Flights(s) && Gates(s) && Calls(s) && Refs(s) && Owners(s) && Answers(s)
    requires WorkerMay(s, step) && Passing(step)
    ensures Flights(WorkerDoes(s, step))
  {
  }

  lemma FreeingFlights(s: State, step: WorkerStep)
    requires Flights(s) && Gates(s) && Calls(s) && Refs(s) && Owners(s) && Answers(s)
    requires WorkerMay(s, step) && Freeing(step)
    ensures Flights(WorkerDoes(s, step))
  {
  }

  lemma CloserFlights(s: State, c: nat, step: CloserStep)
    requires Flights(s) && Gates(s) && Calls(s) && Refs(s) && Owners(s) && Answers(s)
    requires CloserMay(s, c, step)
    ensures Flights(CloserDoes(s, c, step))
  {
  }

  lemma QuietKeeps(s: State, c: nat, step: CallerStep)
    requires Inv(s) && CallerMay(s, c, step) && Quiet(step)
    ensures Inv(CallerDoes(s, c, step))
  {
    CallerGates(s, c, step); CallerStops(s, c, step); QuietCalls(s, c, step); QuietRefs(s, c, step);
    QuietCounts(s, c, step); CallerOwners(s, c, step); CallerBytes(s, c, step); QuietAnswers(s, c, step);
    QuietFresh(s, c, step); QuietOrders(s, c, step); CallerWires(s, c, step); QuietReports(s, c, step);
    QuietFlights(s, c, step);
  }

  lemma AbortsKeeps(s: State, c: nat, step: CallerStep)
    requires Inv(s) && CallerMay(s, c, step) && Aborts(step)
    ensures Inv(CallerDoes(s, c, step))
  {
    CallerGates(s, c, step); CallerStops(s, c, step); AbortsCalls(s, c, step); AbortsRefs(s, c, step);
    AbortsCounts(s, c, step); CallerOwners(s, c, step); CallerBytes(s, c, step); AbortsAnswers(s, c, step);
    AbortsFresh(s, c, step); AbortsOrders(s, c, step); CallerWires(s, c, step); AbortsReports(s, c, step);
    AbortsFlights(s, c, step);
  }

  lemma LetsGoKeeps(s: State, c: nat, step: CallerStep)
    requires Inv(s) && CallerMay(s, c, step) && LetsGo(step)
    ensures Inv(CallerDoes(s, c, step))
  {
    CallerGates(s, c, step); CallerStops(s, c, step); LetsGoCalls(s, c, step); LetsGoRefs(s, c, step);
    LetsGoCounts(s, c, step); CallerOwners(s, c, step); CallerBytes(s, c, step); LetsGoAnswers(s, c, step);
    LetsGoFresh(s, c, step); LetsGoOrders(s, c, step); CallerWires(s, c, step); LetsGoReports(s, c, step);
    LetsGoFlights(s, c, step);
  }

  lemma HandlesKeeps(s: State, c: nat, step: CallerStep)
    requires Inv(s) && CallerMay(s, c, step) && Handles(step)
    ensures Inv(CallerDoes(s, c, step))
  {
    CallerGates(s, c, step); CallerStops(s, c, step); HandlesCalls(s, c, step); HandlesRefs(s, c, step);
    HandlesCounts(s, c, step); CallerOwners(s, c, step); CallerBytes(s, c, step); HandlesAnswers(s, c, step);
    HandlesFresh(s, c, step); HandlesOrders(s, c, step); CallerWires(s, c, step); HandlesReports(s, c, step);
    HandlesFlights(s, c, step);
  }

  lemma RestingKeeps(s: State, step: WorkerStep)
    requires Inv(s) && WorkerMay(s, step) && Resting(step)
    ensures Inv(WorkerDoes(s, step))
  {
    WorkerGates(s, step); WorkerStops(s, step); WorkerCalls(s, step); RestingRefs(s, step);
    RestingCounts(s, step); WorkerOwners(s, step); WorkerBytes(s, step); RestingAnswers(s, step);
    WorkerFresh(s, step); RestingOrders(s, step); WorkerWires(s, step); RestingReports(s, step);
    RestingFlights(s, step);
  }

  lemma ReplyingKeeps(s: State, step: WorkerStep)
    requires Inv(s) && WorkerMay(s, step) && Replying(step)
    ensures Inv(WorkerDoes(s, step))
  {
    WorkerGates(s, step); WorkerStops(s, step); WorkerCalls(s, step); ReplyingRefs(s, step);
    ReplyingCounts(s, step); WorkerOwners(s, step); WorkerBytes(s, step); ReplyingAnswers(s, step);
    WorkerFresh(s, step); ReplyingOrders(s, step); WorkerWires(s, step); ReplyingReports(s, step);
    ReplyingFlights(s, step);
  }

  lemma PassingKeeps(s: State, step: WorkerStep)
    requires Inv(s) && WorkerMay(s, step) && Passing(step)
    ensures Inv(WorkerDoes(s, step))
  {
    WorkerGates(s, step); WorkerStops(s, step); WorkerCalls(s, step); PassingRefs(s, step);
    PassingCounts(s, step); WorkerOwners(s, step); WorkerBytes(s, step); PassingAnswers(s, step);
    WorkerFresh(s, step); PassingOrders(s, step); WorkerWires(s, step); PassingReports(s, step);
    PassingFlights(s, step);
  }

  lemma FreeingKeeps(s: State, step: WorkerStep)
    requires Inv(s) && WorkerMay(s, step) && Freeing(step)
    ensures Inv(WorkerDoes(s, step))
  {
    WorkerGates(s, step); WorkerStops(s, step); WorkerCalls(s, step); FreeingRefs(s, step);
    FreeingCounts(s, step); WorkerOwners(s, step); WorkerBytes(s, step); FreeingAnswers(s, step);
    WorkerFresh(s, step); FreeingOrders(s, step); WorkerWires(s, step); FreeingReports(s, step);
    FreeingFlights(s, step);
  }

  lemma CloserKeeps(s: State, c: nat, step: CloserStep)
    requires Inv(s) && CloserMay(s, c, step)
    ensures Inv(CloserDoes(s, c, step))
  {
    CloserGates(s, c, step); CloserStops(s, c, step); CloserCalls(s, c, step); CloserRefs(s, c, step);
    CloserCounts(s, c, step); CloserOwners(s, c, step); CloserBytes(s, c, step); CloserAnswers(s, c, step);
    CloserFresh(s, c, step); CloserOrders(s, c, step); CloserWires(s, c, step); CloserReports(s, c, step);
    CloserFlights(s, c, step);
  }

  lemma StepKeeps(s: State, step: Step)
    requires Inv(s) && May(s, step)
    ensures Inv(Does(s, step))
  {
    match step
    case ByCaller(c, act) =>
      if Aborts(act) { AbortsKeeps(s, c, act); }
      else if LetsGo(act) { LetsGoKeeps(s, c, act); }
      else if Handles(act) { HandlesKeeps(s, c, act); }
      else { QuietKeeps(s, c, act); }
    case ByCloser(c, act) => CloserKeeps(s, c, act);
    case ByWorker(act) =>
      if Replying(act) { ReplyingKeeps(s, act); }
      else if Passing(act) { PassingKeeps(s, act); }
      else if Freeing(act) { FreeingKeeps(s, act); }
      else { RestingKeeps(s, act); }
    case Close =>
  }

  // ---------------------------------------------------------------- the theorems

  lemma {:induction false} RunKeepsInv(s: State, steps: seq<Step>, s': State)
    requires Inv(s) && Reaches(s, steps, s')
    ensures Inv(s')
    decreases |steps|
  {
    if steps != [] {
      StepKeeps(s, steps[0]);
      RunKeepsInv(Does(s, steps[0]), steps[1..], s');
    }
  }

  ghost predicate Reachable(s: State) {
    exists s0, steps :: Initial(s0) && Reaches(s0, steps, s)
  }

  lemma ReachableInv(s: State)
    requires Reachable(s)
    ensures Inv(s)
  {
    var s0, steps :| Initial(s0) && Reaches(s0, steps, s);
    InitialInv(s0);
    RunKeepsInv(s0, steps, s);
  }

  /** No send on the closed queue, no channel closed twice; and the operations that must not block do
      not: whoever owes the token finds the gate empty, whoever owes a result finds the channel empty,
      whoever owes a release holds a live reference. */
  lemma NothingPanicsOrBlocks(s: State, c: nat)
    requires Reachable(s)
    ensures !s.flags.panicked
    ensures c in s.callers && (s.callers[c].GateBack? || s.callers[c].CloseGateBack?) ==> s.gate.tokens == 0
    ensures s.worker.GiveGate? ==> s.gate.tokens == 0
    ensures c in s.callers && CallerRef(s.callers[c]).Ref? ==> Live(s.store, CallerRef(s.callers[c]).id)
    ensures WorkerRef(s.worker).Ref? ==> Live(s.store, WorkerRef(s.worker).id)
    ensures s.worker.Holding? || s.worker.Wrote? || s.worker.DrainHolding? ==> s.store[s.worker.req].result.NoResult?
  {
    ReachableInv(s);
  }

  /** Once the worker has exited the queue is empty, and stays empty whatever happens next. */
  lemma {:induction false} EmptyAfterExit(s: State, steps: seq<Step>, s': State)
    requires Reachable(s) && s.worker.Exited? && Reaches(s, steps, s')
    ensures s'.worker.Exited? && s'.queue.NoRef?
    decreases |steps|
  {
    ReachableInv(s);
    if steps != [] {
      var next := Does(s, steps[0]);
      StepKeeps(s, steps[0]);
      ReachableNext(s, steps[0]);
      assert next.worker.Exited?;
      EmptyAfterExit(next, steps[1..], s');
    }
  }

  lemma ReachableNext(s: State, step: Step)
    requires Reachable(s) && May(s, step)
    ensures Reachable(Does(s, step))
  {
    var s0, steps :| Initial(s0) && Reaches(s0, steps, s);
    ReachesMore(s0, steps, s, step);
  }

  lemma {:induction false} ReachesMore(s0: State, steps: seq<Step>, s: State, step: Step)
    requires Reaches(s0, steps, s) && May(s, step)
    ensures Reaches(s0, steps + [step], Does(s, step))
    decreases |steps|
  {
    if steps == [] {
      assert steps + [step] == [step];
      assert Reaches(Does(s, step), [], Does(s, step));
    } else {
      ReachesMore(Does(s0, steps[0]), steps[1..], s, step);
      assert (steps + [step])[1..] == steps[1..] + [step];
    }
  }

  /** A request is in the pool exactly when nobody refers to it, so it is recycled once, by the last
      reference; and while the worker can read it, it holds the bytes of the call it works for. */
  lemma RecycledWhenUnreferenced(s: State, r: nat)
    requires Reachable(s) && r in s.store
    ensures s.store[r].refs == 0 <==>
              && s.queue != Ref(r) && WorkerRef(s.worker) != Ref(r)
              && forall c :: c in s.callers ==> CallerRef(s.callers[c]) != Ref(r)
    ensures WorkerRef(s.worker) == Ref(r) ==>
              s.store[r].caller in s.log.payload && s.store[r].data == s.log.payload[s.store[r].caller]
  {
    ReachableInv(s);
  }

  /** What the transport is given is, in order and byte for byte, a prefix of what was admitted. */
  lemma HandedIsPrefix(s: State)
    requires Reachable(s)
    ensures s.log.handed <= s.log.admitted && |s.log.wire| == |s.log.handed|
    ensures forall k :: 0 <= k < |s.log.handed| ==>
              s.log.admitted[k] in s.log.payload && s.log.wire[k] == s.log.payload[s.log.admitted[k]]
  {
    ReachableInv(s);
  }

  /** A call never reports less than the transport took of its chunk, so no byte is sent twice by a
      caller that retries what was not reported; and a call that was not admitted sent nothing. */
  lemma ReportsCoverDelivery(s: State, c: nat)
    requires Reachable(s) && c in s.log.reports
    ensures s.log.reports[c] >= Got(s.log.delivered, c)
    ensures c !in s.log.admitted ==> c !in s.log.handed
  {
    ReachableInv(s);
  }
}
