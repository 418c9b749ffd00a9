/** pipeWriteQueue (integration/xray/pipe_writer.go): callers put one downstream operation at a time
    through a one-slot job channel.  The gate token is taken by the caller and given back by whoever
    ends the attempt: the caller when submission is refused, the worker when it has completed the job,
    even if the caller has long since timed out.  Requests are pooled and counted.

    One step is one channel, mutex or atomic operation of one goroutine. */
module PipeQueue {

  datatype Ref = NoRef | Ref(id: nat)

  /** `owns`: the request still owns its Xray buffers. `answered`: its result channel is full. */
  datatype Request = Request(refs: nat, caller: nat, finish: bool, owns: bool, answered: bool)

  /** Where one Write, WriteDatagrams or CloseWrite call is. */
  datatype CallerPc =
    | Acquiring(finish: bool)
    | Gated(finish: bool)
    | Prepared(req: nat)
    | Refused(req: nat)
    | Awaiting(req: nat)
    | Leaving(req: nat)
    | Returned

  datatype WorkerPc =
    | Unstarted
    | Idle
    | LastLook
    | Holding(req: nat)
    | Calling(req: nat)
    | Replying(req: nat, stop: bool)
    | Freeing(req: nat, stop: bool)
    | GivingGate(stop: bool)
    | Exiting
    | Exited

  datatype Holder = Nobody | CallerHolds(c: nat) | JobHolds

  datatype Gate = Gate(tokens: nat, holder: Holder)

  datatype Flags = Flags(closed: bool, fin: bool, err: bool)

  type Store = map<nat, Request>

  /** History: the request each call took, the calls that brought buffers, the calls admitted, the calls
      completed, the calls whose buffers went to the transport, and those whose buffers were released
      with the request. */
  datatype Log = Log(
    lease: map<nat, nat>,
    brought: set<nat>,
    admitted: seq<nat>,
    completed: seq<nat>,
    passed: set<nat>,
    freed: set<nat>)

  datatype State = State(
    callers: map<nat, CallerPc>,
    worker: WorkerPc,
    gate: Gate,
    flags: Flags,
    jobs: Ref,               // the one-slot channel
    store: Store,
    log: Log)

  ghost predicate Initial(s: State) {
    s == State(map[], Unstarted, Gate(1, Nobody), Flags(false, false, false), NoRef, map[],
               Log(map[], {}, [], [], {}, {}))
  }

  function PutToken(g: Gate): Gate { Gate(g.tokens + 1, Nobody) }

  function Move(s: State, c: nat, pc: CallerPc): State { s.(callers := s.callers[c := pc]) }

  /** release(): the last reference recycles the object and frees the buffers it still owns. */
  function Release(s: State, r: nat): State
    requires r in s.store && s.store[r].refs > 0
  {
    var q := s.store[r];
    if q.refs > 1 then s.(store := s.store[r := q.(refs := q.refs - 1)])
    else s.(store := s.store[r := Request(0, q.caller, false, false, false)],
            log := s.log.(freed := if q.owns then s.log.freed + {q.caller} else s.log.freed))
  }

  function CallerRef(pc: CallerPc): Ref {
    if pc.Prepared? || pc.Refused? || pc.Awaiting? || pc.Leaving? then Ref(pc.req) else NoRef
  }

  function WorkerRef(w: WorkerPc): Ref {
    if w.Holding? || w.Calling? || w.Replying? || w.Freeing? then Ref(w.req) else NoRef
  }

  predicate Live(st: Store, r: nat) { r in st && st[r].refs > 0 }

  // ---------------------------------------------------------------- callers

  datatype CallerStep =
    | Begin(finish: bool)
    | AcquireFails
    | AcquireGate
    | TakeRequest(r: nat)
    | Submit
    | SubmitRefused
    | GiveBackGate
    | WaitEnds(received: bool)
    | Leave

  predicate CallerMay(s: State, c: nat, step: CallerStep) {
    if step.Begin? then c !in s.callers
    else
      c in s.callers &&
      var pc := s.callers[c];
      (CallerRef(pc).Ref? ==> Live(s.store, CallerRef(pc).id)) &&
      match step
      case Begin(_) => false
      case AcquireFails => pc.Acquiring?
      case AcquireGate => pc.Acquiring? && s.gate.tokens > 0
      case TakeRequest(r) => pc.Gated? && !Live(s.store, r)
      case Submit => pc.Prepared? && !s.flags.closed && !s.flags.err && !s.flags.fin && s.jobs.NoRef?
      case SubmitRefused => pc.Prepared?
      case GiveBackGate => pc.Refused? && s.gate.tokens == 0
      case WaitEnds(received) => pc.Awaiting? && (received ==> s.store[pc.req].answered)
      case Leave => pc.Leaving?
  }

  function CallerDoes(s: State, c: nat, step: CallerStep): State
    requires CallerMay(s, c, step)
  {
    match step
    case Begin(finish) => Move(s, c, Acquiring(finish))
    case AcquireFails => Move(s, c, Returned)
    case AcquireGate => Move(s.(gate := Gate(0, CallerHolds(c))), c, Gated(s.callers[c].finish))
    case TakeRequest(r) =>
      var finish := s.callers[c].finish;
      Move(s.(store := s.store[r := Request(1, c, finish, !finish, false)],
              log := s.log.(lease := s.log.lease[c := r],
                            brought := if finish then s.log.brought else s.log.brought + {c})),
           c, Prepared(r))
    case Submit =>  // under the mutex: the checks, the second reference, the send
      var r := s.callers[c].req;
      var q := s.store[r];
      Move(s.(flags := s.flags.(fin := q.finish),
              store := s.store[r := q.(refs := q.refs + 1)],
              jobs := Ref(r),
              gate := s.gate.(holder := JobHolds),
              log := s.log.(admitted := s.log.admitted + [c])),
           c, Awaiting(r))
    case SubmitRefused => Move(s, c, Refused(s.callers[c].req))
    case GiveBackGate => Move(s.(gate := PutToken(s.gate)), c, Leaving(s.callers[c].req))
    case WaitEnds(received) =>  // deadline, Close and the worker's exit end the wait too
      var r := s.callers[c].req;
      Move(s.(store := s.store[r := s.store[r].(answered := s.store[r].answered && !received)]), c, Leaving(r))
    case Leave => Move(Release(s, s.callers[c].req), c, Returned)
  }

  // ---------------------------------------------------------------- worker

  datatype WorkerStep =
    | Start
    | Receives
    | SeesDone
    | LastLookTakes
    | LastLookEmpty
    | DropsHeld
    | Calls
    | CallReturns(err: bool)
    | Replies
    | Frees
    | GivesGate
    | Exits

  predicate WorkerMay(s: State, step: WorkerStep) {
    var w := s.worker;
    (WorkerRef(w).Ref? ==> Live(s.store, WorkerRef(w).id)) &&
    match step
    case Start => w.Unstarted?
    case Receives => w.Idle? && s.jobs.Ref?
    case SeesDone => w.Idle? && s.flags.closed
    case LastLookTakes => w.LastLook? && s.jobs.Ref?
    case LastLookEmpty => w.LastLook? && s.jobs.NoRef?
    case DropsHeld => w.Holding? && s.flags.closed
    case Calls => w.Holding? && !s.flags.closed
    case CallReturns(_) => w.Calling?
    case Replies => w.Replying? && !s.store[w.req].answered
    case Frees => w.Freeing?
    case GivesGate => w.GivingGate? && s.gate.tokens == 0
    case Exits => w.Exiting?
  }

  function WorkerDoes(s: State, step: WorkerStep): State
    requires WorkerMay(s, step)
  {
    var w := s.worker;
    match step
    case Start => s.(worker := Idle)
    case Receives => s.(worker := Holding(s.jobs.id), jobs := NoRef)
    case SeesDone => s.(worker := LastLook)
    case LastLookTakes => s.(worker := Replying(s.jobs.id, true), jobs := NoRef)
    case LastLookEmpty => s.(worker := Exiting)
    case DropsHeld => s.(worker := Replying(w.req, true))
    case Calls =>
      var q := s.store[w.req];
      s.(worker := Calling(w.req),
         store := s.store[w.req := q.(owns := false)],
         log := s.log.(passed := if q.owns then s.log.passed + {q.caller} else s.log.passed))
    case CallReturns(err) =>
      s.(worker := Replying(w.req, s.store[w.req].finish || err), flags := s.flags.(err := err))
    case Replies =>
      s.(worker := Freeing(w.req, w.stop), store := s.store[w.req := s.store[w.req].(answered := true)],
         log := s.log.(completed := s.log.completed + [s.store[w.req].caller]))
    case Frees => Release(s, w.req).(worker := GivingGate(w.stop))
    case GivesGate => s.(worker := if w.stop then Exiting else Idle, gate := PutToken(s.gate))
    case Exits => s.(worker := Exited)
  }

  // ---------------------------------------------------------------- runs

  datatype Step = ByCaller(c: nat, act: CallerStep) | ByWorker(work: WorkerStep) | Close

  predicate May(s: State, step: Step) {
    match step
    case ByCaller(c, act) => CallerMay(s, c, act)
    case ByWorker(work) => WorkerMay(s, work)
    case Close => true
  }

  function Does(s: State, step: Step): State
    requires May(s, step)
  {
    match step
    case ByCaller(c, act) => CallerDoes(s, c, act)
    case ByWorker(work) => WorkerDoes(s, work)
    case Close => s.(flags := s.flags.(closed := true))
  }

  ghost predicate Reaches(s: State, steps: seq<Step>, s': State)
    decreases |steps|
  {
    if steps == [] then s == s'
    else May(s, steps[0]) && Reaches(Does(s, steps[0]), steps[1..], s')
  }
}
