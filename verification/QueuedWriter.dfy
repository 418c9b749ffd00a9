/** connio.Writer (pkg/connio/deadline.go): callers copy their chunk into a pooled request, submit it
    through a one-slot queue while holding a gate token, and wait for the worker's result; deadlines,
    Close, CloseWrite and a failing transport may end the wait at any time.

    One step is one channel or atomic operation of one goroutine.  A request object is recycled and
    reused through the pool, so a dangling reference would corrupt another caller's chunk. */
module QueuedWriter {

  /** A reference to a request, and the content of a result channel. */
  datatype Ref = NoRef | Ref(id: nat)

  datatype Result = NoResult | Result(n: nat)

  type Chunk = seq<int>

  const MAX_CHUNK := 65535

  /** A pooled request: reference count, the copied bytes, the one-slot result channel. `caller` is the
      call the object currently works for. */
  datatype Request = Request(refs: nat, caller: nat, data: Chunk, result: Result)

  /** Where one call of WritePacket or CloseWrite is. */
  datatype CallerPc =
    | Acquiring
    | Gated
    | Checked
    | Looping(req: nat)
    | Submitting(req: nat)
    | Aborting(req: nat)
    | Awaiting(req: nat)
    | Leaving(req: nat, n: nat)
    | GateBack(n: nat)
    | Returned
    | CloseAcquiring
    | CloseGated
    | CloseGateBack

  datatype WorkerPc =
    | Unstarted
    | Idle
    | Holding(req: nat)
    | Writing(req: nat)
    | Wrote(req: nat, n: nat, failed: bool)
    | Sent(req: nat, stop: bool)
    | Stopping
    | WaitGate
    | Draining
    | DrainHolding(req: nat)
    | DrainSent(req: nat)
    | GiveGate
    | Exiting
    | Exited

  datatype Holder = Nobody | CallerHolds(c: nat) | WorkerHolds

  /** Tokens in the gate channel, and (history) who took the token and has not put it back. */
  datatype Gate = Gate(tokens: nat, holder: Holder)

  /** `fin` is also: the queue is closed. `panicked`: a send on, or a close of, a closed channel. */
  datatype Flags = Flags(done: bool, stopping: bool, fin: bool, err: bool, panicked: bool)

  /** Every request object there is. Those with no reference are in the pool. */
  type Store = map<nat, Request>

  /** History: the chunk of each call, the request each call took, the calls admitted to the queue,
      the calls whose chunk was given to the transport and the bytes it was given, what it took of each,
      what each call returned. */
  datatype Log = Log(
    payload: map<nat, Chunk>,
    lease: map<nat, nat>,
    admitted: seq<nat>,
    handed: seq<nat>,
    wire: seq<Chunk>,
    delivered: map<nat, nat>,
    reports: map<nat, nat>)

  datatype State = State(
    callers: map<nat, CallerPc>,
    worker: WorkerPc,
    gate: Gate,
    flags: Flags,
    queue: Ref,               // the one-slot channel
    store: Store,
    log: Log)

  ghost predicate Initial(s: State) {
    s == State(map[], Unstarted, Gate(1, Nobody), Flags(false, false, false, false, false), NoRef,
               map[], Log(map[], map[], [], [], [], map[], map[]))
  }

  // ---------------------------------------------------------------- steps of a WritePacket call

  predicate At(s: State, c: nat, pc: CallerPc) { c in s.callers && s.callers[c] == pc }

  function Move(s: State, c: nat, pc: CallerPc): State { s.(callers := s.callers[c := pc]) }

  function PutToken(g: Gate): Gate { Gate(g.tokens + 1, Nobody) }

  /** release(): the last reference recycles the object: its buffer goes, its result channel is emptied. */
  function Release(st: Store, r: nat): Store
    requires r in st && st[r].refs > 0
  {
    st[r := if st[r].refs > 1 then st[r].(refs := st[r].refs - 1) else Request(0, st[r].caller, [], NoResult)]
  }

  function Answer(st: Store, r: nat, result: Result): Store
    requires r in st
  {
    st[r := st[r].(result := result)]
  }

  /** One step of the call c: a guard, then a change. */
  datatype CallerStep =
    | Begin(p: Chunk)
    | AcquireFails
    | AcquireGate
    | StateRefuses
    | StateAllows
    | TakeRequest(r: nat)
    | LoopAborts
    | LoopPasses
    | SubmitAborts
    | SubmitRetries
    | Submit
    | DropSecondReference
    | ResultArrives
    | WaitEnds
    | Leave
    | GiveBackGate

  predicate CallerMay(s: State, c: nat, step: CallerStep) {
    if step.Begin? then c !in s.callers && |step.p| <= MAX_CHUNK
    else
      c in s.callers &&
      var pc := s.callers[c];
      (CallerRef(pc).Ref? ==> CallerRef(pc).id in s.store && s.store[CallerRef(pc).id].refs > 0) &&
      match step
      case Begin(_) => false
      case AcquireFails => pc.Acquiring?
      case AcquireGate => pc.Acquiring? && s.gate.tokens > 0
      case StateRefuses => pc.Gated? && (s.flags.err || s.flags.fin)
      case StateAllows => pc.Gated? && !s.flags.err && !s.flags.fin
      case TakeRequest(r) => pc.Checked? && (r in s.store ==> s.store[r].refs == 0)
      case LoopAborts => pc.Looping?
      case LoopPasses => pc.Looping? && !s.flags.done && !s.flags.stopping
      case SubmitAborts => pc.Submitting? && (s.flags.done || s.flags.stopping)
      case SubmitRetries => pc.Submitting?
      case Submit => pc.Submitting? && (s.queue.NoRef? || s.flags.fin)  // a send on a closed channel does not wait
      case DropSecondReference => pc.Aborting?
      case ResultArrives => pc.Awaiting? && s.store[pc.req].result.Result?
      case WaitEnds => pc.Awaiting?
      case Leave => pc.Leaving?
      case GiveBackGate => pc.GateBack? && s.gate.tokens == 0
  }

  /** The request a call refers to. */
  function CallerRef(pc: CallerPc): Ref {
    if pc.Looping? || pc.Submitting? || pc.Aborting? || pc.Awaiting? || pc.Leaving? then Ref(pc.req) else NoRef
  }

  function CallerDoes(s: State, c: nat, step: CallerStep): State
    requires CallerMay(s, c, step)
  {
    match step
    case Begin(p) => Move(s.(log := s.log.(payload := s.log.payload[c := p])), c, Acquiring)
    case AcquireFails => Move(s.(log := s.log.(reports := s.log.reports[c := 0])), c, Returned)
    case AcquireGate => Move(s.(gate := Gate(0, CallerHolds(c))), c, Gated)
    case StateRefuses => Move(s, c, GateBack(0))
    case StateAllows => Move(s, c, Checked)
    case TakeRequest(r) =>
      var chunk := if c in s.log.payload then s.log.payload[c] else [];
      Move(s.(store := s.store[r := Request(2, c, chunk, NoResult)],
              log := s.log.(lease := s.log.lease[c := r])),
           c, Looping(r))
    case LoopAborts => Move(s.(store := Release(s.store, s.callers[c].req)), c, Aborting(s.callers[c].req))
    case LoopPasses => Move(s, c, Submitting(s.callers[c].req))
    case SubmitAborts => Move(s.(store := Release(s.store, s.callers[c].req)), c, Aborting(s.callers[c].req))
    case SubmitRetries => Move(s, c, Looping(s.callers[c].req))
    case Submit =>
      Move(s.(queue := Ref(s.callers[c].req),
              log := s.log.(admitted := s.log.admitted + [c]),
              flags := s.flags.(panicked := s.flags.panicked || s.flags.fin)),
           c, Awaiting(s.callers[c].req))
    case DropSecondReference => Move(s.(store := Release(s.store, s.callers[c].req)), c, GateBack(0))
    case ResultArrives =>
      var r := s.callers[c].req;
      Move(s.(store := Answer(s.store, r, NoResult)), c, Leaving(r, s.store[r].result.n))
    case WaitEnds => Move(s, c, Leaving(s.callers[c].req, |s.store[s.callers[c].req].data|))
    case Leave => Move(s.(store := Release(s.store, s.callers[c].req)), c, GateBack(s.callers[c].n))
    case GiveBackGate =>
      Move(s.(gate := PutToken(s.gate), log := s.log.(reports := s.log.reports[c := s.callers[c].n])), c, Returned)
  }

  // ---------------------------------------------------------------- steps of a CloseWrite call

  datatype CloserStep = CloseBegin | CloseAcquireFails | CloseAcquireGate | CloseQueue | CloseGiveBackGate

  predicate CloserMay(s: State, c: nat, step: CloserStep) {
    match step
    case CloseBegin => c !in s.callers
    case CloseAcquireFails => At(s, c, CloseAcquiring)
    case CloseAcquireGate => At(s, c, CloseAcquiring) && s.gate.tokens > 0
    case CloseQueue => At(s, c, CloseGated)
    case CloseGiveBackGate => At(s, c, CloseGateBack) && s.gate.tokens == 0
  }

  function CloserDoes(s: State, c: nat, step: CloserStep): State
    requires CloserMay(s, c, step)
  {
    match step
    case CloseBegin => Move(s, c, CloseAcquiring)
    case CloseAcquireFails => Move(s, c, Returned)
    case CloseAcquireGate => Move(s.(gate := Gate(0, CallerHolds(c))), c, CloseGated)
    case CloseQueue => Move(s.(flags := s.flags.(fin := true)), c, CloseGateBack)
    case CloseGiveBackGate => Move(s.(gate := PutToken(s.gate)), c, Returned)
  }

  // ---------------------------------------------------------------- steps of the worker

  datatype WorkerStep =
    | Start
    | SeesDone
    | Receives
    | SeesClosed(failed: bool)
    | DropsHeld
    | Writes
    | WriteReturns(n: nat, failed: bool)
    | Replies
    | Releases
    | ClosesStopping
    | TakesGate
    | DrainReceives
    | DrainReplies
    | DrainReleases
    | DrainEnds
    | PutsGate
    | Exits

  function WorkerRef(w: WorkerPc): Ref {
    if w.Holding? || w.Writing? || w.Wrote? || w.Sent? || w.DrainHolding? || w.DrainSent? then Ref(w.req) else NoRef
  }

  predicate WorkerMay(s: State, step: WorkerStep) {
    var w := s.worker;
    (WorkerRef(w).Ref? ==> WorkerRef(w).id in s.store && s.store[WorkerRef(w).id].refs > 0) &&
    match step
    case Start => w.Unstarted?
    case SeesDone => w.Idle? && s.flags.done
    case Receives => w.Idle? && s.queue.Ref?
    case SeesClosed(_) => w.Idle? && s.queue.NoRef? && s.flags.fin
    case DropsHeld => w.Holding? && s.flags.done && s.store[w.req].result.NoResult?
    case Writes => w.Holding? && !s.flags.done
    case WriteReturns(n, _) => w.Writing? && n <= |s.store[w.req].data|
    case Replies => w.Wrote? && s.store[w.req].result.NoResult?
    case Releases => w.Sent?
    case ClosesStopping => w.Stopping?
    case TakesGate => w.WaitGate? && s.gate.tokens > 0
    case DrainReceives => w.Draining? && s.queue.Ref?
    case DrainReplies => w.DrainHolding? && s.store[w.req].result.NoResult?
    case DrainReleases => w.DrainSent?
    case DrainEnds => w.Draining? && s.queue.NoRef?
    case PutsGate => w.GiveGate? && s.gate.tokens == 0
    case Exits => w.Exiting?
  }

  function WorkerDoes(s: State, step: WorkerStep): State
    requires WorkerMay(s, step)
  {
    var w := s.worker;
    match step
    case Start => s.(worker := Idle)
    case SeesDone => s.(worker := Stopping)
    case Receives => s.(worker := Holding(s.queue.id), queue := NoRef)
    case SeesClosed(failed) => s.(worker := Stopping, flags := s.flags.(err := s.flags.err || failed))
    case DropsHeld => s.(worker := Sent(w.req, true), store := Answer(s.store, w.req, Result(0)))
    case Writes =>
      var q := s.store[w.req];
      s.(worker := Writing(w.req), log := s.log.(handed := s.log.handed + [q.caller], wire := s.log.wire + [q.data]))
    case WriteReturns(n, failed) =>
      var q := s.store[w.req];
      var bad := failed || n != |q.data|;
      s.(worker := Wrote(w.req, n, bad),
         flags := s.flags.(err := s.flags.err || bad),
         log := s.log.(delivered := s.log.delivered[q.caller := n]))
    case Replies => s.(worker := Sent(w.req, w.failed), store := Answer(s.store, w.req, Result(w.n)))
    case Releases => s.(worker := if w.stop then Stopping else Idle, store := Release(s.store, w.req))
    case ClosesStopping =>
      s.(worker := WaitGate, flags := s.flags.(stopping := true, panicked := s.flags.panicked || s.flags.stopping))
    case TakesGate => s.(worker := Draining, gate := Gate(0, WorkerHolds))
    case DrainReceives => s.(worker := DrainHolding(s.queue.id), queue := NoRef)
    case DrainReplies => s.(worker := DrainSent(w.req), store := Answer(s.store, w.req, Result(0)))
    case DrainReleases => s.(worker := Draining, store := Release(s.store, w.req))
    case DrainEnds => s.(worker := GiveGate)
    case PutsGate => s.(worker := Exiting, gate := PutToken(s.gate))
    case Exits => s.(worker := Exited)
  }

  // ---------------------------------------------------------------- runs

  datatype Step =
    | ByCaller(c: nat, act: CallerStep)
    | ByCloser(c: nat, close: CloserStep)
    | ByWorker(work: WorkerStep)
    | Close

  predicate May(s: State, step: Step) {
    match step
    case ByCaller(c, act) => CallerMay(s, c, act)
    case ByCloser(c, close) => CloserMay(s, c, close)
    case ByWorker(work) => WorkerMay(s, work)
    case Close => true
  }

  function Does(s: State, step: Step): State
    requires May(s, step)
  {
    match step
    case ByCaller(c, act) => CallerDoes(s, c, act)
    case ByCloser(c, close) => CloserDoes(s, c, close)
    case ByWorker(work) => WorkerDoes(s, work)
    case Close => s.(flags := s.flags.(done := true))
  }

  ghost predicate Reaches(s: State, steps: seq<Step>, s': State)
    decreases |steps|
  {
    if steps == [] then s == s'
    else May(s, steps[0]) && Reaches(Does(s, steps[0]), steps[1..], s')
  }
}
