/** What pipeWriteQueue does for its callers: the worker goes on after every operation that succeeds, a
    failed operation, a half-close or a Close is the last, and no step that is due is ever stuck. */
module PipeQueueService {
  import opened PipeQueue
  import opened PipeQueueProof

  /** The downstream operation fails, or was the half-close. */
  predicate Last(s: State, step: Step)
    requires May(s, step)
  {
    step.ByWorker? && step.work.CallReturns? && (step.work.err || s.store[s.worker.req].finish)
  }

  predicate Undisturbed(s: State, steps: seq<Step>)
    decreases |steps|
  {
    steps != [] && May(s, steps[0]) ==>
      !steps[0].Close? && !Last(s, steps[0]) && Undisturbed(Does(s, steps[0]), steps[1..])
  }

  /** Between two jobs, or at one after which it goes on. */
  predicate AtWork(w: WorkerPc) {
    || w.Unstarted? || w.Idle? || w.Holding? || w.Calling?
    || ((w.Replying? || w.Freeing? || w.GivingGate?) && !w.stop)
  }

  predicate Serving(s: State) { AtWork(s.worker) && !s.flags.closed && !s.flags.err }

  lemma StepServes(s: State, step: Step)
    requires Serving(s) && May(s, step) && !step.Close? && !Last(s, step)
    ensures Serving(Does(s, step))
  {
  }

  lemma {:induction false} RunServes(s: State, steps: seq<Step>, s': State)
    requires Serving(s) && Reaches(s, steps, s') && Undisturbed(s, steps)
    ensures Serving(s')
    decreases |steps|
  {
    if steps != [] {
      StepServes(s, steps[0]);
      RunServes(Does(s, steps[0]), steps[1..], s');
    }
  }

  /** While no operation has failed and nothing was closed, the worker never stops, and whoever has a request
      ready may submit it. */
  lemma ServesWhileUndisturbed(s0: State, steps: seq<Step>, s: State, c: nat)
    requires Initial(s0) && Reaches(s0, steps, s) && Undisturbed(s0, steps)
    ensures AtWork(s.worker) && !s.flags.err
    ensures c in s.callers && s.callers[c].Prepared? && !s.flags.fin ==> CallerMay(s, c, Submit)
  {
    RunServes(s0, steps, s);
    assert Reachable(s);
    ReachableInv(s);
  }

  // ---------------------------------------------------------------- the last operation

  lemma LastDecides(s: State, step: Step)
    requires May(s, step) && Last(s, step)
    ensures Deciding(Does(s, step).worker) && Does(s, step).flags.err == step.work.err
  {
  }

  /** After a failed operation or the half-close there is no other. */
  lemma {:induction false} NothingAfterLast(s: State, steps: seq<Step>, s': State)
    requires Inv(s) && Deciding(s.worker) && Reaches(s, steps, s')
    ensures Deciding(s'.worker) && !WorkerMay(s', Calls) && s'.flags.err == s.flags.err
    ensures s'.log.passed == s.log.passed
    decreases |steps|
  {
    if steps != [] {
      StepKeeps(s, steps[0]);
      DecisionStands(s, steps[0]);
      DecidedPassesNothing(s, steps[0]);
      NothingAfterLast(Does(s, steps[0]), steps[1..], s');
    }
  }

  lemma DecidedPassesNothing(s: State, step: Step)
    requires Deciding(s.worker) && May(s, step)
    ensures Does(s, step).log.passed == s.log.passed && Does(s, step).flags.err == s.flags.err
  {
  }

  /** Nor is there after Close. */
  lemma {:induction false} NothingAfterClose(s: State, steps: seq<Step>, s': State, c: nat)
    requires s.flags.closed && Reaches(s, steps, s')
    ensures s'.flags.closed && !WorkerMay(s', Calls) && !CallerMay(s', c, Submit) && s'.log.passed == s.log.passed
    decreases |steps|
  {
    if steps != [] {
      ClosedPassesNothing(s, steps[0]);
      NothingAfterClose(Does(s, steps[0]), steps[1..], s', c);
    }
  }

  lemma ClosedPassesNothing(s: State, step: Step)
    requires s.flags.closed && May(s, step)
    ensures Does(s, step).flags.closed && Does(s, step).log.passed == s.log.passed
  {
  }

  // ---------------------------------------------------------------- buffers are passed on

  /** A completed call had its buffers passed on, and so had the one about to be completed. */
  ghost predicate PassedOn(w: WorkerPc, st: Store, log: Log) {
    && (forall c :: c in log.completed && c in log.brought ==> c in log.passed)
    && ((w.Calling? || w.Replying?) && Live(st, w.req) && st[w.req].caller in log.brought ==>
          st[w.req].caller in log.passed)
  }

  lemma CallerPassedOn(s: State, c: nat, step: CallerStep)
    requires PipeQueueProof.Calling(s) && Flow(s) && Refs(s) && Owners(s) && PassedOn(s.worker, s.store, s.log)
    requires CallerMay(s, c, step)
    ensures var s' := CallerDoes(s, c, step); PassedOn(s'.worker, s'.store, s'.log)
  {
    assert forall b :: b in s.log.completed ==> b in s.log.admitted;
  }

  lemma WorkerPassedOn(s: State, step: WorkerStep)
    requires Brought(s) && Owners(s) && Refs(s) && Buffers(s) && Serving(s) && PassedOn(s.worker, s.store, s.log)
    requires WorkerMay(s, step) && !Last(s, ByWorker(step))
    ensures var s' := WorkerDoes(s, step); PassedOn(s'.worker, s'.store, s'.log)
  {
  }

  lemma {:induction false} RunPassesOn(s: State, steps: seq<Step>, s': State)
    requires Inv(s) && Serving(s) && PassedOn(s.worker, s.store, s.log)
    requires Reaches(s, steps, s') && Undisturbed(s, steps)
    ensures PassedOn(s'.worker, s'.store, s'.log)
    decreases |steps|
  {
    if steps != [] {
      StepKeeps(s, steps[0]);
      StepServes(s, steps[0]);
      StepPassesOn(s, steps[0]);
      RunPassesOn(Does(s, steps[0]), steps[1..], s');
    }
  }

  lemma StepPassesOn(s: State, step: Step)
    requires Inv(s) && Serving(s) && PassedOn(s.worker, s.store, s.log)
    requires May(s, step) && !step.Close? && !Last(s, step)
    ensures var s' := Does(s, step); PassedOn(s'.worker, s'.store, s'.log)
  {
    if step.ByCaller? {
      CallerPassedOn(s, step.c, step.act);
    } else {
      WorkerPassedOn(s, step.work);
    }
  }

  /** In an undisturbed run every completed call had the buffers it brought passed to the transport. */
  lemma CompletedMeansPassed(s0: State, steps: seq<Step>, s: State, c: nat)
    requires Initial(s0) && Reaches(s0, steps, s) && Undisturbed(s0, steps)
    requires c in s.log.completed && c in s.log.brought
    ensures c in s.log.passed && c !in s.log.freed
  {
    InitialInv(s0);
    RunPassesOn(s0, steps, s);
    RunKeepsInv(s0, steps, s);
  }

  // ---------------------------------------------------------------- progress

  /** The worker's next step. */
  function Due(s: State): WorkerStep {
    match s.worker
    case Unstarted => Start
    case Idle => if s.jobs.Ref? then Receives else SeesDone
    case LastLook => if s.jobs.Ref? then LastLookTakes else LastLookEmpty
    case Holding(_) => if s.flags.closed then DropsHeld else Calls
    case Calling(_) => CallReturns(false)
    case Replying(_, _) => Replies
    case Freeing(_, _) => Frees
    case GivingGate(_) => GivesGate
    case Exiting => Exits
    case Exited => Exits
  }

  /** The worker is stuck only when it has exited or has nothing to do. */
  lemma WorkerMoves(s: State)
    requires Reachable(s) && !s.worker.Exited? && !(s.worker.Idle? && s.jobs.NoRef? && !s.flags.closed)
    ensures WorkerMay(s, Due(s))
  {
    ReachableInv(s);
  }

  /** A call is stuck only at the gate, or waiting for its result. */
  lemma CallerMoves(s: State, c: nat, r: nat)
    requires Reachable(s) && c in s.callers
    ensures s.callers[c].Acquiring? && s.gate.tokens > 0 ==> CallerMay(s, c, AcquireGate)
    ensures s.callers[c].Gated? && r !in s.store ==> CallerMay(s, c, TakeRequest(r))
    ensures s.callers[c].Refused? ==> CallerMay(s, c, GiveBackGate)
    ensures s.callers[c].Awaiting? ==> s.callers[c].req in s.store
    ensures s.callers[c].Awaiting? && s.store[s.callers[c].req].answered ==> CallerMay(s, c, WaitEnds(true))
    ensures s.callers[c].Leaving? ==> CallerMay(s, c, Leave)
  {
    ReachableInv(s);
  }
}
