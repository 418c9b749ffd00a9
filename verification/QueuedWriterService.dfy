/** What connio.Writer does for its callers: the worker goes on after every whole write and stops only for
    a cause, nothing is written after a failure or a Close, and a call that waits for its result reports
    exactly what the transport took. */
module QueuedWriterService {
  import opened QueuedWriter
  import opened QueuedWriterProof

  // ---------------------------------------------------------------- causes to stop

  /** The transport fails, or takes less than the chunk it was given. */
  predicate BreaksOff(s: State, step: Step)
    requires May(s, step)
  {
    step.ByWorker? && step.work.WriteReturns?
    && (step.work.failed || step.work.n < |s.store[s.worker.req].data|)
  }

  /** Close, the closing of the queue by CloseWrite, or a failed or short write. */
  predicate Ends(s: State, step: Step)
    requires May(s, step)
  {
    step.Close? || (step.ByCloser? && step.close.CloseQueue?) || BreaksOff(s, step)
  }

  /** A run with no cause to stop. */
  predicate Undisturbed(s: State, steps: seq<Step>)
    decreases |steps|
  {
    steps != [] && May(s, steps[0]) ==> !Ends(s, steps[0]) && Undisturbed(Does(s, steps[0]), steps[1..])
  }

  /** Between two chunks, or at one that has not failed. */
  predicate AtWork(w: WorkerPc) {
    || w.Unstarted? || w.Idle? || w.Holding? || w.Writing?
    || (w.Wrote? && !w.failed) || (w.Sent? && !w.stop)
  }

  predicate Serving(s: State) {
    AtWork(s.worker) && !s.flags.done && !s.flags.stopping && !s.flags.fin && !s.flags.err
  }

  lemma StepServes(s: State, step: Step)
    requires Serving(s) && May(s, step) && !Ends(s, step)
    ensures Serving(Does(s, step))
  {
  }

  lemma {:induction false} RunServes(s: State, steps: seq<Step>, s': State)
    requires Serving(s) && Reaches(s, steps, s') && Undisturbed(s, steps)
    ensures Serving(s')
    decreases |steps|
  {
    if steps != [] {
      StepServes(s, steps[0]);
      RunServes(Does(s, steps[0]), steps[1..], s');
    }
  }

  lemma MayGoOn(s: State, c: nat)
    requires Serving(s) && Refs(s) && Gates(s)
    ensures At(s, c, Gated) ==> CallerMay(s, c, StateAllows) && !CallerMay(s, c, StateRefuses)
    ensures c in s.callers && s.callers[c].Looping? ==> CallerMay(s, c, LoopPasses)
    ensures c in s.callers && s.callers[c].Submitting? ==>
      !CallerMay(s, c, SubmitAborts) && (s.queue.NoRef? ==> CallerMay(s, c, Submit))
  {
  }

  /** Without a cause to stop the worker never stops, and no call is refused or aborted: whoever holds the
      gate may go on to submit. */
  lemma ServesWhileUndisturbed(s0: State, steps: seq<Step>, s: State, c: nat)
    requires Initial(s0) && Reaches(s0, steps, s) && Undisturbed(s0, steps)
    ensures AtWork(s.worker) && !s.flags.stopping && !s.flags.err
    ensures At(s, c, Gated) ==> CallerMay(s, c, StateAllows) && !CallerMay(s, c, StateRefuses)
    ensures c in s.callers && s.callers[c].Looping? ==> CallerMay(s, c, LoopPasses)
    ensures c in s.callers && s.callers[c].Submitting? ==>
      !CallerMay(s, c, SubmitAborts) && (s.queue.NoRef? ==> CallerMay(s, c, Submit))
  {
    RunServes(s0, steps, s);
    InitialInv(s0);
    RunKeepsInv(s0, steps, s);
    MayGoOn(s, c);
  }

  /** The state before step `i` of a run. */
  function Before(s: State, steps: seq<Step>, i: nat): State
    requires i <= |steps|
    decreases i
  {
    if i == 0 || !May(s, steps[0]) then s else Before(Does(s, steps[0]), steps[1..], i - 1)
  }

  /** In every run: if the worker has stopped, or an error is recorded, there was a cause. */
  lemma {:induction false} StopsForACause(s: State, steps: seq<Step>, s': State)
    requires Serving(s) && Reaches(s, steps, s')
    requires !AtWork(s'.worker) || s'.flags.stopping || s'.flags.err
    ensures exists i: nat :: i < |steps| && May(Before(s, steps, i), steps[i]) && Ends(Before(s, steps, i), steps[i])
    decreases |steps|
  {
    assert steps != [];
    if Ends(s, steps[0]) {
      assert Before(s, steps, 0) == s;
    } else {
      StepServes(s, steps[0]);
      var next := Does(s, steps[0]);
      StopsForACause(next, steps[1..], s');
      var i: nat :| i < |steps[1..]| && May(Before(next, steps[1..], i), steps[1..][i])
                    && Ends(Before(next, steps[1..], i), steps[1..][i]);
      assert Before(s, steps, i + 1) == Before(next, steps[1..], i) && steps[i + 1] == steps[1..][i];
    }
  }

  lemma InitialServes(s: State)
    requires Initial(s)
    ensures Serving(s)
  {
  }

  // ---------------------------------------------------------------- after a cause

  /** The worker is on its way out. */
  predicate Leaves(w: WorkerPc) {
    (w.Wrote? && w.failed) || (w.Sent? && w.stop)
    || w.Stopping? || w.WaitGate? || Drained(w)
  }

  lemma WorkerLeaves(s: State, step: WorkerStep)
    requires Leaves(s.worker) && WorkerMay(s, step)
    ensures Leaves(WorkerDoes(s, step).worker) && WorkerDoes(s, step).log.handed == s.log.handed
  {
  }

  lemma OthersHandNothing(s: State, step: Step)
    requires !step.ByWorker? && May(s, step)
    ensures Does(s, step).worker == s.worker && Does(s, step).log.handed == s.log.handed
    ensures s.flags.done ==> Does(s, step).flags.done
  {
  }

  lemma DoneHandsNothing(s: State, step: WorkerStep)
    requires s.flags.done && WorkerMay(s, step)
    ensures WorkerDoes(s, step).flags.done && WorkerDoes(s, step).log.handed == s.log.handed
  {
  }

  /** After a failed or short write the transport is given nothing more. */
  lemma {:induction false} NothingAfterFailure(s: State, steps: seq<Step>, s': State)
    requires Leaves(s.worker) && Reaches(s, steps, s')
    ensures Leaves(s'.worker) && s'.log.handed == s.log.handed
    decreases |steps|
  {
    if steps != [] {
      if steps[0].ByWorker? {
        WorkerLeaves(s, steps[0].work);
      } else {
        OthersHandNothing(s, steps[0]);
      }
      NothingAfterFailure(Does(s, steps[0]), steps[1..], s');
    }
  }

  lemma FailureLeaves(s: State, step: Step)
    requires May(s, step) && BreaksOff(s, step)
    ensures Leaves(Does(s, step).worker) && Does(s, step).flags.err
  {
  }

  /** Nor is it after Close. */
  lemma {:induction false} NothingAfterClose(s: State, steps: seq<Step>, s': State)
    requires s.flags.done && Reaches(s, steps, s')
    ensures s'.flags.done && s'.log.handed == s.log.handed
    decreases |steps|
  {
    if steps != [] {
      if steps[0].ByWorker? {
        DoneHandsNothing(s, steps[0].work);
      } else {
        OthersHandNothing(s, steps[0]);
      }
      NothingAfterClose(Does(s, steps[0]), steps[1..], s');
    }
  }

  // ---------------------------------------------------------------- reports

  /** No request of the call is still to be answered. */
  ghost predicate NoneWaits(w: WorkerPc, queue: Ref, st: Store, c: nat) {
    forall r :: Live(st, r) && st[r].caller == c ==> !Unanswered(w, queue, r)
  }

  /** The call is about to report `n`, or has. */
  predicate Says(pcs: Pcs, reports: map<nat, nat>, c: nat, n: nat) {
    && c in pcs
    && match pcs[c]
       case Leaving(_, m) => m == n
       case GateBack(m) => m == n
       case Returned => c in reports && reports[c] == n
       case _ => false
  }

  /** The call has its result: it reports `n`, what the transport took of its chunk, for good. */
  ghost predicate Settled(s: State, c: nat, n: nat) {
    && NoneWaits(s.worker, s.queue, s.store, c)
    && Says(s.callers, s.log.reports, c, n)
    && Got(s.log.delivered, c) == n
  }

  lemma ResultSettles(s: State, c: nat)
    requires Inv(s) && CallerMay(s, c, ResultArrives)
    ensures var s' := CallerDoes(s, c, ResultArrives); Settled(s', c, Got(s.log.delivered, c))
  {
  }

  lemma CallerSays(s: State, c: nat, n: nat, b: nat, step: CallerStep)
    requires Says(s.callers, s.log.reports, c, n) && CallerMay(s, b, step)
    ensures var s' := CallerDoes(s, b, step);
      Says(s'.callers, s'.log.reports, c, n) && Got(s'.log.delivered, c) == Got(s.log.delivered, c)
  {
  }

  lemma CallerNoneWaits(s: State, c: nat, n: nat, b: nat, step: CallerStep)
    requires Gates(s) && Refs(s) && Says(s.callers, s.log.reports, c, n) && CallerMay(s, b, step)
    requires NoneWaits(s.worker, s.queue, s.store, c)
    ensures var s' := CallerDoes(s, b, step); NoneWaits(s'.worker, s'.queue, s'.store, c)
  {
  }

  lemma WorkerSettled(s: State, c: nat, n: nat, step: WorkerStep)
    requires Refs(s) && Settled(s, c, n) && WorkerMay(s, step)
    ensures Settled(WorkerDoes(s, step), c, n)
  {
  }

  lemma CloserSettled(s: State, c: nat, n: nat, b: nat, step: CloserStep)
    requires Settled(s, c, n) && CloserMay(s, b, step)
    ensures Settled(CloserDoes(s, b, step), c, n)
  {
  }

  lemma StepSettled(s: State, c: nat, n: nat, step: Step)
    requires Gates(s) && Refs(s) && Settled(s, c, n) && May(s, step)
    ensures Settled(Does(s, step), c, n)
  {
    if step.ByCaller? {
      CallerSays(s, c, n, step.c, step.act);
      CallerNoneWaits(s, c, n, step.c, step.act);
    } else if step.ByCloser? {
      CloserSettled(s, c, n, step.c, step.close);
    } else if step.ByWorker? {
      WorkerSettled(s, c, n, step.work);
    }
  }

  lemma {:induction false} StaysSettled(s: State, c: nat, n: nat, steps: seq<Step>, s': State)
    requires Inv(s) && Settled(s, c, n) && Reaches(s, steps, s')
    ensures Settled(s', c, n)
    decreases |steps|
  {
    if steps != [] {
      StepKeeps(s, steps[0]);
      StepSettled(s, c, n, steps[0]);
      StaysSettled(Does(s, steps[0]), c, n, steps[1..], s');
    }
  }

  /** A call ended by its result reports exactly what the transport took of its chunk, and that does not
      change any more. */
  lemma ResultIsExact(s: State, c: nat, steps: seq<Step>, s': State)
    requires Reachable(s) && CallerMay(s, c, ResultArrives) && Reaches(CallerDoes(s, c, ResultArrives), steps, s')
    ensures c in s'.callers && s'.callers[c].Returned? ==>
      c in s'.log.reports && s'.log.reports[c] == Got(s'.log.delivered, c) == Got(s.log.delivered, c)
  {
    var next := CallerDoes(s, c, ResultArrives);
    ReachableInv(s);
    ResultSettles(s, c);
    CallerStepKeeps(s, c);
    StaysSettled(next, c, Got(s.log.delivered, c), steps, s');
  }

  lemma CallerStepKeeps(s: State, c: nat)
    requires Inv(s) && CallerMay(s, c, ResultArrives)
    ensures Inv(CallerDoes(s, c, ResultArrives))
  {
    StepKeeps(s, ByCaller(c, ResultArrives));
  }

  // ---------------------------------------------------------------- what other calls report

  /** No call reports more than its chunk, and one that was not admitted reports nothing. */
  ghost predicate Modest(log: Log) {
    forall c :: c in log.reports && c in log.payload ==>
      log.reports[c] <= |log.payload[c]| && (c !in log.admitted ==> log.reports[c] == 0)
  }

  ghost predicate InsideModest(i: Inside, log: Log) {
    && (i.In? && (i.pc.Awaiting? || i.pc.Leaving?) ==> i.c in log.admitted)
    && (i.In? && Decided(i) && i.c in log.payload ==>
          i.pc.n <= |log.payload[i.c]| && (i.c !in log.admitted ==> i.pc.n == 0))
  }

  ghost predicate ModestAll(s: State) { Modest(s.log) && InsideModest(InsideState(s), s.log) }

  lemma ResultModest(s: State, c: nat)
    requires Refs(s) && Gates(s) && Answers(s) && Wires(s) && ModestAll(s) && CallerMay(s, c, ResultArrives)
    ensures ModestAll(CallerDoes(s, c, ResultArrives))
  {
  }

  /** The steps that only move the call on, or take or give back the gate. */
  predicate Walks(step: CallerStep) { Quiet(step) && !step.WaitEnds? }

  lemma WalksModest(s: State, c: nat, step: CallerStep)
    requires Gates(s) && Refs(s) && Calls(s) && ModestAll(s)
    requires CallerMay(s, c, step) && Walks(step)
    ensures ModestAll(CallerDoes(s, c, step))
  {
  }

  lemma WaitModest(s: State, c: nat)
    requires Gates(s) && Refs(s) && Bytes(s) && ModestAll(s) && CallerMay(s, c, WaitEnds)
    ensures ModestAll(CallerDoes(s, c, WaitEnds))
  {
  }

  lemma AbortsModest(s: State, c: nat, step: CallerStep)
    requires Gates(s) && Calls(s) && ModestAll(s)
    requires CallerMay(s, c, step) && (Aborts(step) || LetsGo(step))
    ensures ModestAll(CallerDoes(s, c, step))
  {
  }

  lemma SubmitModest(s: State, c: nat, step: CallerStep)
    requires Gates(s) && Calls(s) && ModestAll(s)
    requires CallerMay(s, c, step) && (step.TakeRequest? || step.Submit?)
    ensures ModestAll(CallerDoes(s, c, step))
  {
  }

  lemma CloserModest(s: State, c: nat, step: CloserStep)
    requires Gates(s) && ModestAll(s) && CloserMay(s, c, step)
    ensures ModestAll(CloserDoes(s, c, step))
  {
  }

  lemma WorkerModest(s: State, step: WorkerStep)
    requires Gates(s) && ModestAll(s) && WorkerMay(s, step)
    ensures ModestAll(WorkerDoes(s, step))
  {
  }

  lemma {:induction false} RunModest(s: State, steps: seq<Step>, s': State)
    requires Inv(s) && ModestAll(s) && Reaches(s, steps, s')
    ensures ModestAll(s')
    decreases |steps|
  {
    if steps != [] {
      StepKeeps(s, steps[0]);
      StepModest(s, steps[0]);
      RunModest(Does(s, steps[0]), steps[1..], s');
    }
  }

  lemma StepModest(s: State, step: Step)
    requires Inv(s) && ModestAll(s) && May(s, step)
    ensures ModestAll(Does(s, step))
  {
    if step.ByCaller? {
      if step.act.ResultArrives? {
        ResultModest(s, step.c);
      } else if step.act.WaitEnds? {
        WaitModest(s, step.c);
      } else if Walks(step.act) {
        WalksModest(s, step.c, step.act);
      } else if step.act.TakeRequest? || step.act.Submit? {
        SubmitModest(s, step.c, step.act);
      } else {
        AbortsModest(s, step.c, step.act);
      }
    } else if step.ByCloser? {
      CloserModest(s, step.c, step.close);
    } else if step.ByWorker? {
      WorkerModest(s, step.work);
    }
  }

  lemma ReportsAreModest(s: State, c: nat)
    requires Reachable(s) && c in s.log.reports && c in s.log.payload
    ensures s.log.reports[c] <= |s.log.payload[c]|
    ensures c !in s.log.admitted ==> s.log.reports[c] == 0
  {
    var s0, steps :| Initial(s0) && Reaches(s0, steps, s);
    InitialInv(s0);
    RunModest(s0, steps, s);
  }

  // ---------------------------------------------------------------- progress

  /** The worker's next step, when what it read last time still holds. */
  function Due(s: State): WorkerStep {
    match s.worker
    case Unstarted => Start
    case Idle => if s.queue.Ref? then Receives else if s.flags.done then SeesDone else SeesClosed(false)
    case Holding(_) => if s.flags.done then DropsHeld else Writes
    case Writing(_) => WriteReturns(0, true)
    case Wrote(_, _, _) => Replies
    case Sent(_, _) => Releases
    case Stopping => ClosesStopping
    case WaitGate => TakesGate
    case Draining => if s.queue.Ref? then DrainReceives else DrainEnds
    case DrainHolding(_) => DrainReplies
    case DrainSent(_) => DrainReleases
    case GiveGate => PutsGate
    case Exiting => Exits
    case Exited => Exits
  }

  /** It has exited, has nothing to do, or waits for a caller to leave the gate. */
  predicate Rests(s: State) {
    s.worker.Exited? || (s.worker.Idle? && s.queue.NoRef? && !s.flags.done && !s.flags.fin)
    || (s.worker.WaitGate? && s.gate.tokens == 0)
  }

  lemma DueMay(s: State)
    requires Refs(s) && Gates(s) && Answers(s) && !Rests(s)
    ensures WorkerMay(s, Due(s))
  {
  }

  /** The worker is never stuck: it takes what is queued, writes it unless Close came first, replies, and
      on its way out answers and releases what is left; a write may return any count up to the chunk. */
  lemma WorkerMoves(s: State, n: nat, failed: bool)
    requires Reachable(s)
    ensures !Rests(s) ==> WorkerMay(s, Due(s))
    ensures s.worker.Writing? ==> s.worker.req in s.store
    ensures s.worker.Writing? && n <= |s.store[s.worker.req].data| ==> WorkerMay(s, WriteReturns(n, failed))
  {
    ReachableInv(s);
    if !Rests(s) {
      DueMay(s);
    }
  }

  /** Nor is a call, once it is past the queue or has been turned away. */
  lemma CallerMoves(s: State, c: nat, r: nat)
    requires Reachable(s) && c in s.callers
    ensures s.callers[c].Acquiring? && s.gate.tokens > 0 ==> CallerMay(s, c, AcquireGate)
    ensures s.callers[c].Checked? && r !in s.store ==> CallerMay(s, c, TakeRequest(r))
    ensures s.callers[c].Awaiting? ==> s.callers[c].req in s.store
    ensures s.callers[c].Awaiting? && s.store[s.callers[c].req].result.Result? ==> CallerMay(s, c, ResultArrives)
    ensures s.callers[c].Aborting? ==> CallerMay(s, c, DropSecondReference)
    ensures s.callers[c].Leaving? ==> CallerMay(s, c, Leave)
    ensures s.callers[c].GateBack? ==> CallerMay(s, c, GiveBackGate)
  {
    ReachableInv(s);
  }

  // ---------------------------------------------------------------- whole chunks

  /** Every chunk the transport was given and has returned from was taken whole, and every answer is one of
      those. */
  ghost predicate Whole(w: WorkerPc, st: Store, log: Log) {
    && (forall c :: c in log.delivered ==> c in log.payload && log.delivered[c] == |log.payload[c]|)
    && (forall r :: Live(st, r) && st[r].result.Result? ==> st[r].caller in log.delivered)
    && (w.Wrote? && Live(st, w.req) ==> st[w.req].caller in log.delivered)
  }

  lemma BeginWhole(s: State, c: nat, p: Chunk)
    requires Calls(s) && Wires(s) && Whole(s.worker, s.store, s.log) && CallerMay(s, c, Begin(p))
    ensures var s' := CallerDoes(s, c, Begin(p)); Whole(s'.worker, s'.store, s'.log)
  {
  }

  lemma TakeWhole(s: State, c: nat, r: nat)
    requires Refs(s) && Whole(s.worker, s.store, s.log) && CallerMay(s, c, TakeRequest(r))
    ensures var s' := CallerDoes(s, c, TakeRequest(r)); Whole(s'.worker, s'.store, s'.log)
  {
  }

  lemma CallerWhole(s: State, c: nat, step: CallerStep)
    requires Whole(s.worker, s.store, s.log) && CallerMay(s, c, step) && !step.Begin? && !step.TakeRequest?
    ensures var s' := CallerDoes(s, c, step); Whole(s'.worker, s'.store, s'.log)
  {
  }

  lemma WorkerWhole(s: State, step: WorkerStep)
    requires Refs(s) && Bytes(s) && Serving(s) && Whole(s.worker, s.store, s.log)
    requires WorkerMay(s, step) && !Ends(s, ByWorker(step))
    ensures var s' := WorkerDoes(s, step); Whole(s'.worker, s'.store, s'.log)
  {
  }

  lemma CallerStepWhole(s: State, c: nat, step: CallerStep)
    requires Calls(s) && Wires(s) && Refs(s) && Whole(s.worker, s.store, s.log) && CallerMay(s, c, step)
    ensures var s' := CallerDoes(s, c, step); Whole(s'.worker, s'.store, s'.log)
  {
    if step.Begin? {
      BeginWhole(s, c, step.p);
    } else if step.TakeRequest? {
      TakeWhole(s, c, step.r);
    } else {
      CallerWhole(s, c, step);
    }
  }

  lemma StepWhole(s: State, step: Step)
    requires Inv(s) && Serving(s) && Whole(s.worker, s.store, s.log) && May(s, step) && !Ends(s, step)
    ensures var s' := Does(s, step); Whole(s'.worker, s'.store, s'.log)
  {
    if step.ByCaller? {
      CallerStepWhole(s, step.c, step.act);
    } else if step.ByWorker? {
      WorkerWhole(s, step.work);
    }
  }

  lemma {:induction false} RunWhole(s: State, steps: seq<Step>, s': State)
    requires Inv(s) && Serving(s) && Whole(s.worker, s.store, s.log)
    requires Reaches(s, steps, s') && Undisturbed(s, steps)
    ensures Inv(s') && Whole(s'.worker, s'.store, s'.log)
    decreases |steps|
  {
    if steps != [] {
      StepKeeps(s, steps[0]);
      StepServes(s, steps[0]);
      StepWhole(s, steps[0]);
      RunWhole(Does(s, steps[0]), steps[1..], s');
    }
  }

  /** Without a cause to stop, a call that gets its result reports its whole chunk, which the transport has
      taken. */
  lemma UndisturbedReportsWhole(s0: State, steps: seq<Step>, s: State, c: nat)
    requires Initial(s0) && Reaches(s0, steps, s) && Undisturbed(s0, steps)
    requires c in s.log.payload && CallerMay(s, c, ResultArrives)
    ensures c in s.log.delivered && s.log.delivered[c] == |s.log.payload[c]|
    ensures CallerDoes(s, c, ResultArrives).callers[c] == Leaving(s.callers[c].req, |s.log.payload[c]|)
  {
    InitialInv(s0);
    RunWhole(s0, steps, s);
    ResultIsWhole(s, c);
  }

  lemma ResultIsWhole(s: State, c: nat)
    requires Gates(s) && Refs(s) && Answers(s) && Whole(s.worker, s.store, s.log)
    requires c in s.log.payload && CallerMay(s, c, ResultArrives)
    ensures c in s.log.delivered && s.log.delivered[c] == |s.log.payload[c]|
    ensures CallerDoes(s, c, ResultArrives).callers[c] == Leaving(s.callers[c].req, |s.log.payload[c]|)
  {
  }
}
