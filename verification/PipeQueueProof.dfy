/** Inductive invariants of pipeWriteQueue over every interleaving, and what follows from them. */
module PipeQueueProof {
  import opened PipeQueue

  // ---------------------------------------------------------------- the invariant

  predicate CallerGated(pc: CallerPc) { pc.Gated? || pc.Prepared? || pc.Refused? }

  predicate Busy(w: WorkerPc) { WorkerRef(w).Ref? || w.GivingGate? }

  /** Tokens in the gate and holders of the gate add up to one; a job on its way is such a holder. */
  ghost predicate Gates(s: State) {
    && s.gate.tokens == (if s.gate.holder.Nobody? then 1 else 0)
    && (forall c :: c in s.callers ==> (CallerGated(s.callers[c]) <==> s.gate.holder == CallerHolds(c)))
    && (s.gate.holder.CallerHolds? ==> s.gate.holder.c in s.callers)
    && (s.gate.holder.JobHolds? <==> s.jobs.Ref? || Busy(s.worker))
    && !(s.jobs.Ref? && Busy(s.worker))
  }

  ghost predicate Refs(s: State) {
    && (forall c :: c in s.callers && CallerRef(s.callers[c]).Ref? ==>
          Live(s.store, CallerRef(s.callers[c]).id) && s.store[CallerRef(s.callers[c]).id].caller == c)
    && (s.jobs.Ref? ==> Live(s.store, s.jobs.id))
    && (WorkerRef(s.worker).Ref? ==> Live(s.store, WorkerRef(s.worker).id))
  }

  function CallerShare(callers: map<nat, CallerPc>, c: nat, r: nat): nat {
    if c in callers && CallerRef(callers[c]) == Ref(r) then 1 else 0
  }

  function WorkerShare(w: WorkerPc, jobs: Ref, r: nat): nat {
    if jobs == Ref(r) || WorkerRef(w) == Ref(r) then 1 else 0
  }

  /** The reference count of a request is the number of references to it. */
  ghost predicate Counts(s: State) {
    forall r :: r in s.store ==>
      s.store[r].refs == CallerShare(s.callers, s.store[r].caller, r) + WorkerShare(s.worker, s.jobs, r)
  }

  ghost predicate Owners(s: State) {
    forall r :: r in s.store && s.store[r].refs > 0 ==>
      s.store[r].caller in s.log.lease && s.log.lease[s.store[r].caller] == r
  }

  predicate Unadmitted(pc: CallerPc) { pc.Acquiring? || CallerGated(pc) }

  ghost predicate Calling(s: State) {
    && (forall c :: c in s.callers && (s.callers[c].Acquiring? || s.callers[c].Gated?) ==> c !in s.log.lease)
    && (forall c :: c in s.callers && Unadmitted(s.callers[c]) ==> c !in s.log.admitted)
    && (forall c :: c in s.log.lease || c in s.log.admitted ==> c in s.callers)
  }

  /** Admitted and not answered. */
  predicate Pending(w: WorkerPc, jobs: Ref, r: nat) {
    jobs == Ref(r) || (WorkerRef(w) == Ref(r) && !w.Freeing?)
  }

  /** A request is answered once, after it was admitted. */
  ghost predicate Answers(s: State) {
    forall r :: r in s.store && s.store[r].refs > 0 && s.store[r].answered ==>
      && !Pending(s.worker, s.jobs, r)
      && s.store[r].caller in s.callers && !Unadmitted(s.callers[s.store[r].caller])
  }

  function CallerOf(st: Store, r: nat): nat { if r in st then st[r].caller else 0 }

  function Outstanding(s: State): seq<nat> {
    if s.jobs.Ref? then [CallerOf(s.store, s.jobs.id)]
    else if WorkerRef(s.worker).Ref? && !s.worker.Freeing? then [CallerOf(s.store, s.worker.req)] else []
  }

  ghost predicate Flow(s: State) { s.log.admitted == s.log.completed + Outstanding(s) }

  ghost predicate Distinct(s: State) {
    forall i, j :: 0 <= i < j < |s.log.admitted| ==> s.log.admitted[i] != s.log.admitted[j]
  }

  /** No submission can pass its checks any more. */
  predicate Ended(f: Flags) { f.closed || f.fin || f.err }

  /** The worker will take no further job after the one it may be holding. */
  predicate Deciding(w: WorkerPc) {
    w.LastLook? || w.Exiting? || w.Exited? || ((w.Replying? || w.Freeing? || w.GivingGate?) && w.stop)
  }

  ghost predicate Stops(s: State) {
    && (Deciding(s.worker) ==> Ended(s.flags))
    && (s.worker.LastLook? ==> s.flags.closed)
    && (s.worker.Exiting? || s.worker.Exited? ==> s.jobs.NoRef?)
    && (s.jobs.Ref? || s.worker.Holding? || s.worker.Calling? ==> !s.flags.err)
    && (s.jobs.Ref? && s.jobs.id in s.store && s.store[s.jobs.id].finish ==> s.flags.fin)
    && ((s.worker.Holding? || s.worker.Calling?) && s.worker.req in s.store && s.store[s.worker.req].finish ==>
          s.flags.fin)
  }

  /** Buffers go to the transport or are released with the request, never both. */
  ghost predicate Buffers(s: State) {
    && (forall c :: c in s.log.passed ==> c !in s.log.freed)
    && (forall c :: c in s.log.passed || c in s.log.freed ==> c in s.log.lease)
    && (forall r :: r in s.store && s.store[r].refs > 0 ==>
          s.store[r].caller !in s.log.freed && (s.store[r].owns ==> s.store[r].caller !in s.log.passed))
  }

  /** The request still works for the call and has its buffers. */
  predicate Keeps(st: Store, r: nat, c: nat) { Live(st, r) && st[r].caller == c && st[r].owns }

  /** Buffers that were brought are kept by the request, passed on or released. */
  ghost predicate Brought(s: State) {
    forall c :: c in s.log.brought ==>
      c in s.log.lease && (c in s.log.passed || c in s.log.freed || Keeps(s.store, s.log.lease[c], c))
  }

  ghost predicate Inv(s: State) {
    && Gates(s) && Refs(s) && Counts(s) && Owners(s) && Calling(s)
    && Answers(s) && Flow(s) && Distinct(s) && Stops(s) && Buffers(s) && Brought(s)
  }

  lemma InitialInv(s: State)
    requires Initial(s)
    ensures Inv(s)
  {
  }

  // ---------------------------------------------------------------- every step keeps it

  predicate Taking(step: CallerStep) { step.TakeRequest? || step.Submit? }

  predicate Quiet(step: CallerStep) { !Taking(step) && !step.Leave? }

  predicate Touching(step: WorkerStep) { step.Calls? || step.Replies? }

  predicate Resting(step: WorkerStep) { !Touching(step) && !step.Frees? }

  lemma CallerGates(s: State, c: nat, step: CallerStep)
    requires Gates(s)
    requires CallerMay(s, c, step)
    ensures Gates(CallerDoes(s, c, step))
  {
  }

  lemma WorkerGates(s: State, step: WorkerStep)
    requires Gates(s)
    requires WorkerMay(s, step)
    ensures Gates(WorkerDoes(s, step))
  {
  }

  lemma QuietRefs(s: State, c: nat, step: CallerStep)
    requires Refs(s) && Gates(s) && Counts(s) && Owners(s)
    requires CallerMay(s, c, step) && Quiet(step)
    ensures Refs(CallerDoes(s, c, step))
  {
  }

  lemma TakingRefs(s: State, c: nat, step: CallerStep)
    requires Refs(s) && Gates(s) && Counts(s) && Owners(s)
    requires CallerMay(s, c, step) && Taking(step)
    ensures Refs(CallerDoes(s, c, step))
  {
  }

  lemma LeaveRefs(s: State, c: nat, step: CallerStep)
    requires Refs(s) && Gates(s) && Counts(s) && Owners(s)
    requires CallerMay(s, c, step) && step.Leave?
    ensures Refs(CallerDoes(s, c, step))
  {
  }

  lemma RestingRefs(s: State, step: WorkerStep)
    requires Refs(s) && Gates(s) && Counts(s) && Owners(s)
    requires WorkerMay(s, step) && Resting(step)
    ensures Refs(WorkerDoes(s, step))
  {
  }

  lemma TouchingRefs(s: State, step: WorkerStep)
    requires Refs(s) && Gates(s) && Counts(s) && Owners(s)
    requires WorkerMay(s, step) && Touching(step)
    ensures Refs(WorkerDoes(s, step))
  {
  }

  lemma FreesRefs(s: State, step: WorkerStep)
    requires Refs(s) && Gates(s) && Counts(s) && Owners(s)
    requires WorkerMay(s, step) && step.Frees?
    ensures Refs(WorkerDoes(s, step))
  {
  }

  lemma QuietCounts(s: State, c: nat, step: CallerStep)
    requires Counts(s) && Gates(s) && Refs(s) && Owners(s)
    requires CallerMay(s, c, step) && Quiet(step)
    ensures Counts(CallerDoes(s, c, step))
  {
  }

  lemma TakingCounts(s: State, c: nat, step: CallerStep)
    requires Counts(s) && Gates(s) && Refs(s) && Owners(s)
    requires CallerMay(s, c, step) && Taking(step)
    ensures Counts(CallerDoes(s, c, step))
  {
  }

  lemma LeaveCounts(s: State, c: nat, step: CallerStep)
    requires Counts(s) && Gates(s) && Refs(s) && Owners(s)
    requires CallerMay(s, c, step) && step.Leave?
    ensures Counts(CallerDoes(s, c, step))
  {
  }

  lemma RestingCounts(s: State, step: WorkerStep)
    requires Counts(s) && Gates(s) && Refs(s) && Owners(s)
    requires WorkerMay(s, step) && Resting(step)
    ensures Counts(WorkerDoes(s, step))
  {
  }

  lemma TouchingCounts(s: State, step: WorkerStep)
    requires Counts(s) && Gates(s) && Refs(s) && Owners(s)
    requires WorkerMay(s, step) && Touching(step)
    ensures Counts(WorkerDoes(s, step))
  {
  }

  lemma FreesCounts(s: State, step: WorkerStep)
    requires Counts(s) && Gates(s) && Refs(s) && Owners(s)
    requires WorkerMay(s, step) && step.Frees?
    ensures Counts(WorkerDoes(s, step))
  {
  }

  lemma CallerOwners(s: State, c: nat, step: CallerStep)
    requires Owners(s) && Gates(s) && Calling(s) && Refs(s)
    requires CallerMay(s, c, step)
    ensures Owners(CallerDoes(s, c, step))
  {
  }

  lemma WorkerOwners(s: State, step: WorkerStep)
    requires Owners(s) && Gates(s) && Calling(s) && Refs(s)
    requires WorkerMay(s, step)
    ensures Owners(WorkerDoes(s, step))
  {
  }

  lemma QuietCalling(s: State, c: nat, step: CallerStep)
    requires Calling(s) && Gates(s)
    requires CallerMay(s, c, step) && Quiet(step)
    ensures Calling(CallerDoes(s, c, step))
  {
  }

  lemma TakingCalling(s: State, c: nat, step: CallerStep)
    requires Calling(s) && Gates(s)
    requires CallerMay(s, c, step) && Taking(step)
    ensures Calling(CallerDoes(s, c, step))
  {
  }

  lemma LeaveCalling(s: State, c: nat, step: CallerStep)
    requires Calling(s) && Gates(s)
    requires CallerMay(s, c, step) && step.Leave?
    ensures Calling(CallerDoes(s, c, step))
  {
  }

  lemma WorkerCalling(s: State, step: WorkerStep)
    requires Calling(s) && Gates(s)
    requires WorkerMay(s, step)
    ensures Calling(WorkerDoes(s, step))
  {
  }

  lemma QuietAnswers(s: State, c: nat, step: CallerStep)
    requires Answers(s) && Gates(s) && Refs(s) && Counts(s) && Owners(s) && Calling(s)
    requires CallerMay(s, c, step) && Quiet(step)
    ensures Answers(CallerDoes(s, c, step))
  {
  }

  lemma TakingAnswers(s: State, c: nat, step: CallerStep)
    requires Answers(s) && Gates(s) && Refs(s) && Counts(s) && Owners(s) && Calling(s)
    requires CallerMay(s, c, step) && Taking(step)
    ensures Answers(CallerDoes(s, c, step))
  {
  }

  lemma LeaveAnswers(s: State, c: nat, step: CallerStep)
    requires Answers(s) && Gates(s) && Refs(s) && Counts(s) && Owners(s) && Calling(s)
    requires CallerMay(s, c, step) && step.Leave?
    ensures Answers(CallerDoes(s, c, step))
  {
  }

  lemma RestingAnswers(s: State, step: WorkerStep)
    requires Answers(s) && Gates(s) && Refs(s) && Counts(s) && Owners(s) && Calling(s)
    requires WorkerMay(s, step) && Resting(step)
    ensures Answers(WorkerDoes(s, step))
  {
  }

  lemma TouchingAnswers(s: State, step: WorkerStep)
    requires Answers(s) && Gates(s) && Refs(s) && Counts(s) && Owners(s) && Calling(s)
    requires WorkerMay(s, step) && Touching(step)
    ensures Answers(WorkerDoes(s, step))
  {
  }

  lemma FreesAnswers(s: State, step: WorkerStep)
    requires Answers(s) && Gates(s) && Refs(s) && Counts(s) && Owners(s) && Calling(s)
    requires WorkerMay(s, step) && step.Frees?
    ensures Answers(WorkerDoes(s, step))
  {
  }

  lemma CallerFlow(s: State, c: nat, step: CallerStep)
    requires Flow(s) && Gates(s) && Refs(s)
    requires CallerMay(s, c, step)
    ensures Flow(CallerDoes(s, c, step))
  {
  }

  lemma WorkerFlow(s: State, step: WorkerStep)
    requires Flow(s) && Gates(s) && Refs(s)
    requires WorkerMay(s, step)
    ensures Flow(WorkerDoes(s, step))
  {
  }

  lemma CallerDistinct(s: State, c: nat, step: CallerStep)
    requires Distinct(s) && Gates(s) && Calling(s)
    requires CallerMay(s, c, step)
    ensures Distinct(CallerDoes(s, c, step))
  {
  }

  lemma WorkerDistinct(s: State, step: WorkerStep)
    requires Distinct(s) && Gates(s) && Calling(s)
    requires WorkerMay(s, step)
    ensures Distinct(WorkerDoes(s, step))
  {
  }

  lemma CallerStops(s: State, c: nat, step: CallerStep)
    requires Stops(s) && Gates(s) && Refs(s)
    requires CallerMay(s, c, step)
    ensures Stops(CallerDoes(s, c, step))
  {
  }

  lemma WorkerStops(s: State, step: WorkerStep)
    requires Stops(s) && Gates(s) && Refs(s)
    requires WorkerMay(s, step)
    ensures Stops(WorkerDoes(s, step))
  {
  }

  lemma QuietBuffers(s: State, c: nat, step: CallerStep)
    requires Buffers(s) && Gates(s) && Refs(s) && Owners(s) && Calling(s)
    requires CallerMay(s, c, step) && Quiet(step)
    ensures Buffers(CallerDoes(s, c, step))
  {
  }

  lemma TakingBuffers(s: State, c: nat, step: CallerStep)
    requires Buffers(s) && Gates(s) && Refs(s) && Owners(s) && Calling(s)
    requires CallerMay(s, c, step) && Taking(step)
    ensures Buffers(CallerDoes(s, c, step))
  {
  }

  lemma LeaveBuffers(s: State, c: nat, step: CallerStep)
    requires Buffers(s) && Gates(s) && Refs(s) && Owners(s) && Calling(s)
    requires CallerMay(s, c, step) && step.Leave?
    ensures Buffers(CallerDoes(s, c, step))
  {
  }

  lemma RestingBuffers(s: State, step: WorkerStep)
    requires Buffers(s) && Gates(s) && Refs(s) && Owners(s) && Calling(s)
    requires WorkerMay(s, step) && Resting(step)
    ensures Buffers(WorkerDoes(s, step))
  {
  }

  lemma TouchingBuffers(s: State, step: WorkerStep)
    requires Buffers(s) && Gates(s) && Refs(s) && Owners(s) && Calling(s)
    requires WorkerMay(s, step) && Touching(step)
    ensures Buffers(WorkerDoes(s, step))
  {
  }

  lemma FreesBuffers(s: State, step: WorkerStep)
    requires Buffers(s) && Gates(s) && Refs(s) && Owners(s) && Calling(s)
    requires WorkerMay(s, step) && step.Frees?
    ensures Buffers(WorkerDoes(s, step))
  {
  }

  lemma CallerBrought(s: State, c: nat, step: CallerStep)
    requires Brought(s) && Calling(s)
    requires CallerMay(s, c, step)
    ensures Brought(CallerDoes(s, c, step))
  {
  }

  lemma WorkerBrought(s: State, step: WorkerStep)
    requires Brought(s)
    requires WorkerMay(s, step)
    ensures Brought(WorkerDoes(s, step))
  {
  }

  lemma CallerKeeps(s: State, c: nat, step: CallerStep)
    requires Inv(s) && CallerMay(s, c, step)
    ensures Inv(CallerDoes(s, c, step))
  {
    CallerGates(s, c, step); CallerOwners(s, c, step); CallerFlow(s, c, step); CallerDistinct(s, c, step);
    CallerStops(s, c, step); CallerBrought(s, c, step);
    if Quiet(step) {
      QuietRefs(s, c, step); QuietCounts(s, c, step); QuietCalling(s, c, step); QuietAnswers(s, c, step);
      QuietBuffers(s, c, step);
    } else if Taking(step) {
      TakingRefs(s, c, step); TakingCounts(s, c, step); TakingCalling(s, c, step); TakingAnswers(s, c, step);
      TakingBuffers(s, c, step);
    } else {
      LeaveRefs(s, c, step); LeaveCounts(s, c, step); LeaveCalling(s, c, step); LeaveAnswers(s, c, step);
      LeaveBuffers(s, c, step);
    }
  }

  lemma WorkerKeeps(s: State, step: WorkerStep)
    requires Inv(s) && WorkerMay(s, step)
    ensures Inv(WorkerDoes(s, step))
  {
    WorkerGates(s, step); WorkerOwners(s, step); WorkerCalling(s, step); WorkerFlow(s, step);
    WorkerDistinct(s, step); WorkerStops(s, step); WorkerBrought(s, step);
    if Resting(step) {
      RestingRefs(s, step); RestingCounts(s, step); RestingAnswers(s, step); RestingBuffers(s, step);
    } else if Touching(step) {
      TouchingRefs(s, step); TouchingCounts(s, step); TouchingAnswers(s, step); TouchingBuffers(s, step);
    } else {
      FreesRefs(s, step); FreesCounts(s, step); FreesAnswers(s, step); FreesBuffers(s, step);
    }
  }

  lemma StepKeeps(s: State, step: Step)
    requires Inv(s) && May(s, step)
    ensures Inv(Does(s, step))
  {
    match step
    case ByCaller(c, act) => CallerKeeps(s, c, act);
    case ByWorker(act) => WorkerKeeps(s, act);
    case Close =>
  }

  // ---------------------------------------------------------------- the theorems

  lemma {:induction false} RunKeepsInv(s: State, steps: seq<Step>, s': State)
    requires Inv(s) && Reaches(s, steps, s')
    ensures Inv(s')
    decreases |steps|
  {
    if steps != [] {
      StepKeeps(s, steps[0]);
      RunKeepsInv(Does(s, steps[0]), steps[1..], s');
    }
  }

  ghost predicate Reachable(s: State) {
    exists s0, steps :: Initial(s0) && Reaches(s0, steps, s)
  }

  lemma ReachableInv(s: State)
    requires Reachable(s)
    ensures Inv(s)
  {
    var s0, steps :| Initial(s0) && Reaches(s0, steps, s);
    InitialInv(s0);
    RunKeepsInv(s0, steps, s);
  }

  /** Gate tokens and holders add up to one, two callers are never inside the gate together, and no send
      that must not block does: the job slot is free for the caller that holds the gate, the gate is
      empty for whoever owes the token, and the result channel is empty for the worker. */
  lemma GateIsConserved(s: State, c: nat, c': nat)
    requires Reachable(s)
    ensures c in s.callers && c' in s.callers && CallerGated(s.callers[c]) && CallerGated(s.callers[c']) ==> c == c'
    ensures s.gate.tokens + (if s.gate.holder.Nobody? then 0 else 1) == 1
    ensures c in s.callers && CallerGated(s.callers[c]) ==> s.jobs.NoRef? && !Busy(s.worker) && s.gate.tokens == 0
    ensures s.worker.GivingGate? ==> s.gate.tokens == 0
    ensures s.worker.Replying? ==> Live(s.store, s.worker.req) && !s.store[s.worker.req].answered
  {
    ReachableInv(s);
  }

  /** From the moment the worker decides to exit, no submission is possible in any later state. */
  lemma {:induction false} NoSubmissionAfterDecision(s: State, steps: seq<Step>, s': State, c: nat)
    requires Inv(s) && Deciding(s.worker) && Reaches(s, steps, s')
    ensures Deciding(s'.worker) && !CallerMay(s', c, Submit)
    decreases |steps|
  {
    if steps != [] {
      StepKeeps(s, steps[0]);
      DecisionStands(s, steps[0]);
      NoSubmissionAfterDecision(Does(s, steps[0]), steps[1..], s', c);
    }
  }

  lemma DecisionStands(s: State, step: Step)
    requires Stops(s) && Deciding(s.worker) && May(s, step)
    ensures Deciding(Does(s, step).worker)
  {
  }

  /** Every admitted request is completed at most once, in order; at most one is outstanding; and when
      the worker has exited every one has been completed. */
  lemma CompletedOnce(s: State)
    requires Reachable(s)
    ensures s.log.completed <= s.log.admitted && |s.log.admitted| <= |s.log.completed| + 1
    ensures forall i, j :: 0 <= i < j < |s.log.completed| ==> s.log.completed[i] != s.log.completed[j]
    ensures s.worker.Exited? ==> s.log.completed == s.log.admitted
  {
    ReachableInv(s);
    forall i, j | 0 <= i < j < |s.log.completed|
      ensures s.log.completed[i] != s.log.completed[j]
    {
      assert s.log.completed[i] == s.log.admitted[i] && s.log.completed[j] == s.log.admitted[j];
    }
  }

  /** A request returns to the pool exactly when neither the caller nor the worker refers to it. */
  lemma RecycledWhenUnreferenced(s: State, r: nat)
    requires Reachable(s) && r in s.store
    ensures s.store[r].refs == 0 <==>
              && s.jobs != Ref(r) && WorkerRef(s.worker) != Ref(r)
              && forall c :: c in s.callers ==> CallerRef(s.callers[c]) != Ref(r)
  {
    ReachableInv(s);
  }

  /** The buffers of a call go to the transport or are released, never both; and once the request no
      longer works for the call, one of the two has happened to whatever buffers the call brought. */
  lemma BuffersReleasedOnce(s: State, c: nat)
    requires Reachable(s)
    ensures s.log.passed !! s.log.freed
    ensures c in s.log.brought ==> c in s.log.lease
    ensures c in s.log.brought && !Keeps(s.store, s.log.lease[c], c) ==> (c in s.log.passed <==> c !in s.log.freed)
    ensures c in s.log.brought && (s.log.lease[c] !in s.store || s.store[s.log.lease[c]].refs == 0) ==>
              (c in s.log.passed <==> c !in s.log.freed)
  {
    ReachableInv(s);
  }
}
