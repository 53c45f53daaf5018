/**
  The stop protocol of one supervised run (internal/supervisor/run.go).

  Any number of graceful and forced stop calls, one goroutine per graceful attempt, one force
  goroutine, one exit waiter, status queries and `completedForceError` calls share a mutex and
  close-once channels.  Every critical section and every channel wait is one step.  A channel is
  the number of times it was closed, so that closing one twice is expressible.
 */
module StopProtocol {
  import opened Model
  import opened Wrappers

  /** The milestones a stop call reports through `onProgress`. */
  datatype Stage = Acknowledged | Forcing

  /** The error value a call returns; `Nil` is success. */
  datatype Outcome = Nil | TimedOut | RequestFailed(code: int) | ForceFailed(code: int) | Canceled

  /** The deadline context of one graceful attempt. */
  datatype Ctx = Live | DeadlineExceeded | Cancelled

  /** `gracefulAttempt`: two channels, the verdict on the request and the final error. */
  datatype Attempt = Attempt(ctx: Ctx, request: nat, done: nat, accepted: bool, err: Outcome)

  /** The fields of `supervisedRun` guarded by its mutex, and the attempts it has created. */
  datatype Shared = Shared(
    intentional: bool, stopping: bool, terminal: bool, state: RunState, done: nat,
    graceful: Option<nat>, gracefulCancel: Option<nat>,
    forceStarted: bool, forceDone: nat, forceErr: Outcome,
    attempts: seq<Attempt>)

  /** Where the goroutine of one attempt (`runGraceful`) is. */
  datatype WorkerPc =
    | Spawned                       // RequestShutdown not called yet
    | Requesting                    // inside RequestShutdown
    | Requested(err: Outcome)       // RequestShutdown returned
    | AwaitForce                    // the request settled after a force had started
    | SettleForced
    | AwaitExit                     // the request was accepted
    | OnDeadline
    | AwaitForceLate
    | ReadForce
    | Settle(err: Outcome)
    | WorkerFinished

  /** Where the goroutine spawned by `force` is. */
  datatype ForcePc =
    | Idle
    | AwaitHandoff(attempt: Option<nat>)
    | InForceStop                       // inside ForceStop
    | AwaitDone(err: Outcome)
    | Publish(err: Outcome)
    | ForceFinished

  /** Where the goroutine started by `newSupervisedRun` is. */
  datatype WaiterPc = AwaitChild | PublishExit | WaiterFinished

  /** Where one call of the run is: a stop, a `completedForceError` or a status query. */
  datatype CallPc =
    | EnterGraceful | AwaitRequest(a: nat) | ReadAccepted(a: nat) | AwaitAttempt(a: nat) | ReadAttempt(a: nat)
    | EnterForce | AwaitForceDone | ReadForceErr
    | Returned(result: Outcome)
    | EnterCompleted | AwaitCompleted | ReadCompleted | CompletedReturned(result: Outcome)
    | EnterStatus | QueryBackend | StoreStatus(state: RunState) | StatusReturned(state: RunState) | StatusFailed

  /** One call: where it entered, whether its context can never end, and what it has reported. */
  datatype Info = Info(entry: CallPc, background: bool, heard: seq<Stage>)

  datatype State = State(
    shared: Shared, workers: seq<WorkerPc>, calls: seq<CallPc>, infos: seq<Info>,
    forcer: ForcePc, waiter: WaiterPc, childExited: bool)

  /** The state `newSupervisedRun` and the startup status write leave behind. */
  function Initial(state: RunState): State
    requires state == Running || state == Paused
  {
    State(Shared(false, false, false, state, 0, None, None, false, 0, Nil, []), [], [], [], Idle, AwaitChild, false)
  }

  // ---------- The critical sections, as functions of the guarded fields ----------

  /** First section of a graceful stop: the new guarded fields and where the caller waits next. */
  function EnterGracefulSection(sh: Shared): (Shared, CallPc) {
    if sh.forceStarted then (sh, AwaitForceDone)
    else if sh.graceful.Some? then (sh, AwaitRequest(sh.graceful.value))
    else
      var a := |sh.attempts|;
      (sh.(graceful := Some(a), gracefulCancel := Some(a),
           attempts := sh.attempts + [Attempt(Live, 0, 0, false, Nil)]),
       AwaitRequest(a))
  }

  function Cancel(a: Attempt): Attempt {
    if a.ctx == Live then a.(ctx := Cancelled) else a
  }

  /** The section of `force`: starts the force once and cancels the graceful deadline. */
  function EnterForceSection(sh: Shared): Shared {
    if sh.forceStarted then sh
    else
      var attempts := match sh.gracefulCancel
        case Some(a) => if a < |sh.attempts| then sh.attempts[a := Cancel(sh.attempts[a])] else sh.attempts
        case None => sh.attempts;
      sh.(forceStarted := true, intentional := true, stopping := true, state := Stopping, attempts := attempts)
  }

  /** The section after RequestShutdown returned `err` for attempt `a`. */
  function SettleRequestSection(sh: Shared, a: nat, err: Outcome): (Shared, WorkerPc)
    requires a < |sh.attempts|
  {
    var at := sh.attempts[a].(accepted := err == Nil, request := sh.attempts[a].request + 1);
    if sh.forceStarted then (sh.(attempts := sh.attempts[a := at]), AwaitForce)
    else if err != Nil then
      var final := if at.ctx == DeadlineExceeded then TimedOut else err;
      var settled := sh.(attempts := sh.attempts[a := at.(err := final, done := at.done + 1)]);
      (if sh.graceful == Some(a) then settled.(graceful := None, gracefulCancel := None) else settled,
       WorkerFinished)
    else
      (sh.(attempts := sh.attempts[a := at], intentional := true, stopping := true, state := Stopping), AwaitExit)
  }

  /** Publishes the final error of attempt `a`. */
  function SettleAttemptSection(sh: Shared, a: nat, err: Outcome): Shared
    requires a < |sh.attempts|
  {
    sh.(attempts := sh.attempts[a := sh.attempts[a].(err := err, done := sh.attempts[a].done + 1)])
  }

  /** The section of the exit waiter. */
  function PublishExitSection(sh: Shared): Shared {
    sh.(terminal := true, done := sh.done + 1)
  }

  /** The last section of the force goroutine. */
  function PublishForceSection(sh: Shared, err: Outcome): Shared {
    sh.(forceErr := err, forceDone := sh.forceDone + 1)
  }

  /** The second section of a status query: a stop that began meanwhile is not overwritten. */
  function StoreStatusSection(sh: Shared, state: RunState): Shared {
    if sh.stopping then sh else sh.(state := state)
  }

  // ---------- Steps ----------

  /** The branch a call takes at a `select`, or what the backend answered. */
  datatype CallBranch = Proceed | ForceClosed | ContextDone | BackendState(state: RunState) | BackendError

  datatype WorkerBranch = WorkerProceed | RequestReturns(err: Outcome) | ExitClosed | CtxDone | ForceDoneClosed

  datatype Event =
    | Arrive(pc: CallPc, background: bool)
    | Call(i: nat, branch: CallBranch)
    | Worker(a: nat, choice: WorkerBranch)
    | ForcerProceed
    | ForceStopReturns(err: Outcome)
    | WaiterProceed
    | ChildExits
    | DeadlineFires(a: nat)

  predicate EntryPoint(pc: CallPc) {
    pc == EnterGraceful || pc == EnterForce || pc == EnterCompleted || pc == EnterStatus
  }

  function Moved(s: State, i: nat, pc: CallPc): State
    requires i < |s.calls|
  {
    s.(calls := s.calls[i := pc])
  }

  /** One step of a stop call that has entered, at program point `s.calls[i]`; None when the branch is closed. */
  function StopCallNext(s: State, i: nat, b: CallBranch): Option<State>
    requires i < |s.calls|
  {
    var sh := s.shared;
    match s.calls[i]
    case EnterGraceful =>
      if b != Proceed then None else
      var (sh', pc) := EnterGracefulSection(sh);
      Some(Moved(s, i, pc).(shared := sh',
        workers := if |sh'.attempts| > |sh.attempts| then s.workers + [Spawned] else s.workers))
    case AwaitRequest(a) =>
      if b == Proceed && a < |sh.attempts| && sh.attempts[a].request > 0 then Some(Moved(s, i, ReadAccepted(a)))
      else if b == ForceClosed && sh.forceDone > 0 then Some(Moved(s, i, AwaitForceDone))
      else if b == ContextDone then Some(Moved(s, i, Returned(Canceled)))
      else None
    case ReadAccepted(a) => if b != Proceed then None else Some(Moved(s, i, AwaitAttempt(a)))
    case AwaitAttempt(a) =>
      if b == Proceed && a < |sh.attempts| && sh.attempts[a].done > 0 then Some(Moved(s, i, ReadAttempt(a)))
      else if b == ForceClosed && sh.forceDone > 0 then Some(Moved(s, i, AwaitForceDone))
      else if b == ContextDone then Some(Moved(s, i, Returned(Canceled)))
      else None
    case ReadAttempt(a) =>
      if b == Proceed && a < |sh.attempts| then Some(Moved(s, i, Returned(sh.attempts[a].err))) else None
    case EnterForce =>
      if b != Proceed then None else
      Some(Moved(s, i, AwaitForceDone).(shared := EnterForceSection(sh),
        forcer := if sh.forceStarted then s.forcer else AwaitHandoff(sh.graceful)))
    case AwaitForceDone =>
      if b == Proceed && sh.forceDone > 0 then Some(Moved(s, i, ReadForceErr))
      else if b == ContextDone then Some(Moved(s, i, Returned(Canceled)))
      else None
    case ReadForceErr => if b != Proceed then None else Some(Moved(s, i, Returned(sh.forceErr)))
    case _ => None
  }

  /** One step of a `completedForceError` call or of a status query. */
  function QueryNext(s: State, i: nat, b: CallBranch): Option<State>
    requires i < |s.calls|
  {
    var sh := s.shared;
    match s.calls[i]
    case EnterCompleted =>
      if b != Proceed then None else
      Some(Moved(s, i, if sh.forceStarted then AwaitCompleted else CompletedReturned(Nil)))
    case AwaitCompleted => if b == Proceed && sh.forceDone > 0 then Some(Moved(s, i, ReadCompleted)) else None
    case ReadCompleted => if b != Proceed then None else Some(Moved(s, i, CompletedReturned(sh.forceErr)))
    case EnterStatus =>
      if b != Proceed then None else
      Some(Moved(s, i, if sh.stopping then StatusReturned(sh.state) else QueryBackend))
    case QueryBackend =>
      // The backend reports an error for every state other than running and paused.
      if b.BackendState? && (b.state == Running || b.state == Paused) then Some(Moved(s, i, StoreStatus(b.state)))
      else if b == BackendError then Some(Moved(s, i, StatusFailed))
      else None
    case StoreStatus(st) =>
      if b != Proceed then None else
      var sh' := StoreStatusSection(sh, st);
      Some(Moved(s, i, StatusReturned(sh'.state)).(shared := sh'))
    case _ => None
  }

  predicate IsQuery(pc: CallPc) {
    || pc.EnterCompleted? || pc.AwaitCompleted? || pc.ReadCompleted? || pc.CompletedReturned?
    || pc.EnterStatus? || pc.QueryBackend? || pc.StoreStatus? || pc.StatusReturned? || pc.StatusFailed?
  }

  function CallNext(s: State, i: nat, b: CallBranch): Option<State>
    requires i < |s.calls|
  {
    if IsQuery(s.calls[i]) then QueryNext(s, i, b) else StopCallNext(s, i, b)
  }

  /** What the step of call `i` reports: on acceptance, on finding a force, and on entering one. */
  function Milestone(s: State, i: nat, b: CallBranch): seq<Stage>
    requires i < |s.calls|
  {
    match s.calls[i]
    case EnterGraceful => if s.shared.forceStarted then [Forcing] else []
    case ReadAccepted(a) => if a < |s.shared.attempts| && s.shared.attempts[a].accepted then [Acknowledged] else []
    case AwaitRequest(_) => if b == ForceClosed then [Forcing] else []
    case AwaitAttempt(_) => if b == ForceClosed then [Forcing] else []
    case EnterForce => [Forcing]
    case _ => []
  }

  /** A step of call `i` with what it reports; a background context never ends a wait. */
  function ReportedNext(s: State, i: nat, b: CallBranch): Option<State>
    requires i < |s.calls| && i < |s.infos|
  {
    if b == ContextDone && s.infos[i].background then None
    else match CallNext(s, i, b)
      case None => None
      case Some(t) => Some(t.(infos := s.infos[i := s.infos[i].(heard := s.infos[i].heard + Milestone(s, i, b))]))
  }

  /** A new call at the entry point `pc`. */
  function Arrived(s: State, pc: CallPc, background: bool): State {
    s.(calls := s.calls + [pc], infos := s.infos + [Info(pc, background, [])])
  }

  function Stepped(s: State, a: nat, pc: WorkerPc): State
    requires a < |s.workers|
  {
    s.(workers := s.workers[a := pc])
  }

  /** One step of the goroutine of attempt `a`. */
  function WorkerNext(s: State, a: nat, b: WorkerBranch): Option<State>
    requires a < |s.workers| && a < |s.shared.attempts|
  {
    var sh := s.shared;
    match s.workers[a]
    case Spawned => if b == WorkerProceed then Some(Stepped(s, a, Requesting)) else None
    case Requesting => if b.RequestReturns? then Some(Stepped(s, a, Requested(b.err))) else None
    case Requested(err) =>
      if b != WorkerProceed then None else
      var (sh', pc) := SettleRequestSection(sh, a, err);
      Some(Stepped(s, a, pc).(shared := sh'))
    case AwaitForce =>
      if b == WorkerProceed && sh.forceDone > 0 then Some(Stepped(s, a, SettleForced)) else None
    case SettleForced =>
      if b != WorkerProceed then None else
      Some(Stepped(s, a, WorkerFinished).(shared := SettleAttemptSection(sh, a, sh.forceErr)))
    case AwaitExit =>
      if b == ExitClosed && sh.done > 0 then Some(Stepped(s, a, Settle(Nil)))
      else if b == CtxDone && sh.attempts[a].ctx != Live then Some(Stepped(s, a, OnDeadline))
      else if b == ForceDoneClosed && sh.forceDone > 0 then Some(Stepped(s, a, ReadForce))
      else None
    case OnDeadline =>
      if b != WorkerProceed then None else
      Some(Stepped(s, a, if sh.forceStarted then AwaitForceLate else Settle(TimedOut)))
    case AwaitForceLate => if b == WorkerProceed && sh.forceDone > 0 then Some(Stepped(s, a, ReadForce)) else None
    case ReadForce => if b == WorkerProceed then Some(Stepped(s, a, Settle(sh.forceErr))) else None
    case Settle(err) =>
      if b != WorkerProceed then None else
      Some(Stepped(s, a, WorkerFinished).(shared := SettleAttemptSection(sh, a, err)))
    case WorkerFinished => None
  }

  /** One step of the force goroutine, other than ForceStop returning. */
  function ForcerNext(s: State): Option<State> {
    match s.forcer
    case AwaitHandoff(None) => Some(s.(forcer := InForceStop))
    case AwaitHandoff(Some(a)) =>
      if a < |s.shared.attempts| && s.shared.attempts[a].request > 0 then Some(s.(forcer := InForceStop)) else None
    case AwaitDone(err) => if s.shared.done > 0 then Some(s.(forcer := Publish(err))) else None
    case Publish(err) => Some(s.(forcer := ForceFinished, shared := PublishForceSection(s.shared, err)))
    case _ => None
  }

  /** The successor of `s` under event `e`, or None when `e` is not possible in `s`. */
  function Next(s: State, e: Event): Option<State>
  {
    match e
    case Arrive(pc, background) => if EntryPoint(pc) then Some(Arrived(s, pc, background)) else None
    case Call(i, b) => if i < |s.calls| && i < |s.infos| then ReportedNext(s, i, b) else None
    case Worker(a, b) => if a < |s.workers| && a < |s.shared.attempts| then WorkerNext(s, a, b) else None
    case ForcerProceed => ForcerNext(s)
    // The backend contract: ForceStop does not return before the child has been reaped.
    case ForceStopReturns(err) =>
      if s.forcer == InForceStop && s.childExited then Some(s.(forcer := AwaitDone(err))) else None
    case WaiterProceed =>
      if s.waiter == AwaitChild && s.childExited then Some(s.(waiter := PublishExit))
      else if s.waiter == PublishExit then Some(s.(waiter := WaiterFinished, shared := PublishExitSection(s.shared)))
      else None
    case ChildExits => if s.childExited then None else Some(s.(childExited := true))
    case DeadlineFires(a) =>
      if a < |s.shared.attempts| && s.shared.attempts[a].ctx == Live then
        var at := s.shared.attempts[a].(ctx := DeadlineExceeded);
        Some(s.(shared := s.shared.(attempts := s.shared.attempts[a := at])))
      else None
  }

  /** The state after the events `es`, or None when some event was not possible. */
  function Exec(s: State, es: seq<Event>): Option<State>
    decreases |es|
  {
    if es == [] then Some(s)
    else match Next(s, es[0])
      case None => None
      case Some(t) => Exec(t, es[1..])
  }

  // ---------- The run invariant ----------

  /** The worker has not settled its request yet. */
  predicate Pending(pc: WorkerPc) {
    pc.Spawned? || pc.Requesting? || pc.Requested?
  }

  ghost predicate AttemptInv(s: State, a: nat)
    requires a < |s.workers| == |s.shared.attempts|
  {
    var sh, at, pc := s.shared, s.shared.attempts[a], s.workers[a];
    && at.request == (if Pending(pc) then 0 else 1)
    && at.done == (if pc == WorkerFinished then 1 else 0)
    && (Pending(pc) || at.accepted ==> sh.graceful == Some(a))
    && (at.accepted ==> !Pending(pc) && sh.stopping && sh.intentional)
    && (pc.AwaitForce? || pc.SettleForced? || pc.AwaitForceLate? || pc.ReadForce? ==> sh.forceStarted)
    && (pc.SettleForced? || pc.ReadForce? ==> sh.forceDone == 1)
    && (pc.AwaitExit? || pc.OnDeadline? || pc.AwaitForceLate? || pc.ReadForce? || pc.Settle? ==> at.accepted)
    && (pc == Settle(Nil) ==> sh.done == 1)
    && (pc == WorkerFinished && at.err == Nil ==> sh.done == 1)
    && (at.ctx == Cancelled ==> sh.forceStarted)
    && (sh.forceStarted && Pending(pc) ==> at.ctx != Live)
  }

  ghost predicate CallInv(s: State, pc: CallPc) {
    var sh := s.shared;
    match pc
    case AwaitRequest(a) => a < |sh.attempts|
    case ReadAccepted(a) => a < |sh.attempts| && sh.attempts[a].request == 1
    case AwaitAttempt(a) => a < |sh.attempts| && sh.attempts[a].request == 1
    case ReadAttempt(a) => a < |sh.attempts| && sh.attempts[a].done == 1
    case AwaitForceDone => sh.forceStarted
    case AwaitCompleted => sh.forceStarted
    case ReadForceErr => sh.forceDone == 1
    case ReadCompleted => sh.forceDone == 1
    case Returned(r) => r == Nil ==> sh.done == 1
    case CompletedReturned(r) => r != Nil ==> sh.done == 1
    case StoreStatus(st) => st == Running || st == Paused
    case StatusReturned(st) => st == Running || st == Paused || st == Stopping
    case _ => true
  }

  ghost predicate ForcerInv(s: State)
    requires |s.workers| == |s.shared.attempts|
  {
    var sh := s.shared;
    && (s.forcer == Idle <==> !sh.forceStarted)
    && (s.forcer.AwaitHandoff? ==> s.forcer.attempt == sh.graceful)
    && (s.forcer != Idle && !s.forcer.AwaitHandoff? ==> forall a :: 0 <= a < |s.workers| ==> !Pending(s.workers[a]))
    && (s.forcer.AwaitDone? || s.forcer.Publish? || s.forcer.ForceFinished? ==> s.childExited)
    && (s.forcer.Publish? || s.forcer.ForceFinished? ==> sh.done == 1)
    && sh.forceDone == (if s.forcer == ForceFinished then 1 else 0)
  }

  ghost predicate SharedInv(s: State) {
    var sh := s.shared;
    && sh.gracefulCancel == sh.graceful
    && (sh.graceful.Some? ==> sh.graceful.value < |sh.attempts|)
    && (sh.forceStarted ==> sh.stopping && sh.intentional)
    && (if sh.stopping then sh.state == Stopping else sh.state == Running || sh.state == Paused)
    && sh.done == (if s.waiter == WaiterFinished then 1 else 0)
    && (s.waiter != AwaitChild ==> s.childExited)
    && (sh.terminal <==> sh.done == 1)
  }

  /** What every reachable state satisfies. */
  ghost predicate Inv(s: State) {
    && |s.workers| == |s.shared.attempts| && |s.infos| == |s.calls|
    && SharedInv(s)
    && ForcerInv(s)
    && (forall a :: 0 <= a < |s.workers| ==> AttemptInv(s, a))
    && (forall i :: 0 <= i < |s.calls| ==> CallInv(s, s.calls[i]))
  }

  /** What a step or a run keeps of attempt `a`: an accepted request and a published result are final. */
  ghost predicate AttemptExtends(s: State, t: State, a: nat)
    requires a < |s.workers| == |s.shared.attempts| <= |t.workers| == |t.shared.attempts|
  {
    && (s.shared.attempts[a].accepted ==>
          t.shared.attempts[a].accepted && t.shared.graceful == Some(a) && |t.workers| == |s.workers|)
    && (s.workers[a] == WorkerFinished ==>
          t.workers[a] == WorkerFinished && t.shared.attempts[a].err == s.shared.attempts[a].err)
    && (s.workers[a] != Spawned ==> t.workers[a] != Spawned)
  }

  predicate CallFinished(pc: CallPc) {
    pc.Returned? || pc.CompletedReturned? || pc.StatusReturned? || pc.StatusFailed?
  }

  /** How a step or a run may change the state: nothing that was published is taken back. */
  ghost predicate Extends(s: State, t: State) {
    && |s.workers| == |s.shared.attempts| <= |t.shared.attempts| == |t.workers|
    && |s.calls| <= |t.calls|
    && s.shared.done <= t.shared.done && s.shared.forceDone <= t.shared.forceDone
    && (s.childExited ==> t.childExited)
    && (s.shared.stopping ==> t.shared.stopping)
    && (s.shared.forceStarted ==> t.shared.forceStarted && |t.shared.attempts| == |s.shared.attempts|)
    && (forall a :: 0 <= a < |s.workers| ==> AttemptExtends(s, t, a))
    && (forall i :: 0 <= i < |s.calls| && CallFinished(s.calls[i]) ==> t.calls[i] == s.calls[i])
    && (forall i :: 0 <= i < |s.calls| && i < |s.infos| ==> InfoExtends(s, t, i))
  }

  /** A call keeps its entry and its context, takes no report back, and reports nothing after its return. */
  predicate InfoExtends(s: State, t: State, i: nat)
    requires i < |s.infos|
  {
    && i < |t.infos| && t.infos[i].entry == s.infos[i].entry && t.infos[i].background == s.infos[i].background
    && s.infos[i].heard <= t.infos[i].heard
    && (i < |s.calls| && CallFinished(s.calls[i]) ==> t.infos[i] == s.infos[i])
  }

  /** A call that only moves to a program point whose own invariant holds keeps everything. */
  lemma MoveKeepsInv(s: State, i: nat, pc: CallPc)
    requires Inv(s) && i < |s.calls| && !CallFinished(s.calls[i]) && CallInv(s, pc)
    ensures Inv(Moved(s, i, pc)) && Extends(s, Moved(s, i, pc))
  {
    var t := Moved(s, i, pc);
    forall a | 0 <= a < |t.workers| ensures AttemptInv(t, a) && AttemptExtends(s, t, a) {
      assert AttemptInv(s, a);
    }
    forall k | 0 <= k < |t.calls| ensures CallInv(t, t.calls[k]) {
      assert k != i ==> CallInv(s, s.calls[k]);
    }
  }

  lemma EnterGracefulKeepsInv(s: State, i: nat)
    requires Inv(s) && i < |s.calls| && s.calls[i] == EnterGraceful
    ensures Inv(StopCallNext(s, i, Proceed).value) && Extends(s, StopCallNext(s, i, Proceed).value)
  {
    var t := StopCallNext(s, i, Proceed).value;
    forall a | 0 <= a < |t.workers|
      ensures AttemptInv(t, a) && (a < |s.workers| ==> AttemptExtends(s, t, a))
    {
      if a < |s.workers| { assert AttemptInv(s, a); }
    }
    forall k | 0 <= k < |t.calls| ensures CallInv(t, t.calls[k]) {
      assert CallInv(s, s.calls[k]);
    }
  }

  lemma EnterForceKeepsInv(s: State, i: nat)
    requires Inv(s) && i < |s.calls| && s.calls[i] == EnterForce
    ensures Inv(StopCallNext(s, i, Proceed).value) && Extends(s, StopCallNext(s, i, Proceed).value)
  {
    var t := StopCallNext(s, i, Proceed).value;
    forall a | 0 <= a < |t.workers| ensures AttemptInv(t, a) && AttemptExtends(s, t, a) {
      assert AttemptInv(s, a);
    }
    forall k | 0 <= k < |t.calls| ensures CallInv(t, t.calls[k]) {
      assert CallInv(s, s.calls[k]);
    }
  }

  lemma StopCallKeepsInv(s: State, i: nat, b: CallBranch)
    requires Inv(s) && i < |s.calls| && StopCallNext(s, i, b).Some?
    ensures Inv(StopCallNext(s, i, b).value) && Extends(s, StopCallNext(s, i, b).value)
  {
    var pc := s.calls[i];
    assert CallInv(s, pc);
    if pc == EnterGraceful {
      EnterGracefulKeepsInv(s, i);
    } else if pc == EnterForce {
      EnterForceKeepsInv(s, i);
    } else {
      var t := StopCallNext(s, i, b).value;
      if pc.AwaitRequest? || pc.AwaitAttempt? || pc.ReadAttempt? { assert AttemptInv(s, pc.a); }
      MoveKeepsInv(s, i, t.calls[i]);
      assert t == Moved(s, i, t.calls[i]);
    }
  }

  lemma StoreStatusKeepsInv(s: State, i: nat)
    requires Inv(s) && i < |s.calls| && s.calls[i].StoreStatus?
    ensures Inv(QueryNext(s, i, Proceed).value) && Extends(s, QueryNext(s, i, Proceed).value)
  {
    var t := QueryNext(s, i, Proceed).value;
    assert CallInv(s, s.calls[i]);
    forall a | 0 <= a < |t.workers| ensures AttemptInv(t, a) && AttemptExtends(s, t, a) {
      assert AttemptInv(s, a);
    }
    forall k | 0 <= k < |t.calls| ensures CallInv(t, t.calls[k]) {
      assert CallInv(s, s.calls[k]);
    }
  }

  lemma QueryKeepsInv(s: State, i: nat, b: CallBranch)
    requires Inv(s) && i < |s.calls| && QueryNext(s, i, b).Some?
    ensures Inv(QueryNext(s, i, b).value) && Extends(s, QueryNext(s, i, b).value)
  {
    assert CallInv(s, s.calls[i]);
    if s.calls[i].StoreStatus? {
      StoreStatusKeepsInv(s, i);
    } else {
      var t := QueryNext(s, i, b).value;
      MoveKeepsInv(s, i, t.calls[i]);
      assert t == Moved(s, i, t.calls[i]);
    }
  }

  /** A worker that only moves, outside the two settling sections, keeps everything. */
  lemma WorkerMoveKeepsInv(s: State, a: nat, pc: WorkerPc)
    requires Inv(s) && a < |s.workers| && s.workers[a] != WorkerFinished && AttemptInv(Stepped(s, a, pc), a)
    requires Pending(s.workers[a]) == Pending(pc) && pc != Spawned
    ensures Inv(Stepped(s, a, pc)) && Extends(s, Stepped(s, a, pc))
  {
    var t := Stepped(s, a, pc);
    forall c | 0 <= c < |t.workers| ensures AttemptInv(t, c) && AttemptExtends(s, t, c) {
      assert AttemptInv(s, c);
    }
    forall k | 0 <= k < |t.calls| ensures CallInv(t, t.calls[k]) {
      assert CallInv(s, s.calls[k]);
    }
  }

  /** The section after RequestShutdown changes its own attempt and the flags it raises. */
  lemma SettleRequestKeepsInv(s: State, a: nat)
    requires Inv(s) && a < |s.workers| && s.workers[a].Requested?
    ensures Inv(WorkerNext(s, a, WorkerProceed).value) && Extends(s, WorkerNext(s, a, WorkerProceed).value)
  {
    var t := WorkerNext(s, a, WorkerProceed).value;
    assert AttemptInv(s, a);
    forall c | 0 <= c < |t.workers| ensures AttemptInv(t, c) && AttemptExtends(s, t, c) {
      assert AttemptInv(s, c);
    }
    forall k | 0 <= k < |t.calls| ensures CallInv(t, t.calls[k]) {
      assert CallInv(s, s.calls[k]);
    }
  }

  /** The section after an overtaking force publishes the result of the force. */
  lemma SettleForcedKeepsInv(s: State, a: nat)
    requires Inv(s) && a < |s.workers| && s.workers[a].SettleForced?
    ensures Inv(WorkerNext(s, a, WorkerProceed).value) && Extends(s, WorkerNext(s, a, WorkerProceed).value)
  {
    var t := WorkerNext(s, a, WorkerProceed).value;
    assert AttemptInv(s, a);
    forall c | 0 <= c < |t.workers| ensures AttemptInv(t, c) && AttemptExtends(s, t, c) {
      assert AttemptInv(s, c);
    }
    forall k | 0 <= k < |t.calls| ensures CallInv(t, t.calls[k]) {
      assert CallInv(s, s.calls[k]);
    }
  }

  /** The last section publishes the final error of the attempt. */
  lemma SettleKeepsInv(s: State, a: nat)
    requires Inv(s) && a < |s.workers| && s.workers[a].Settle?
    ensures Inv(WorkerNext(s, a, WorkerProceed).value) && Extends(s, WorkerNext(s, a, WorkerProceed).value)
  {
    var t := WorkerNext(s, a, WorkerProceed).value;
    assert AttemptInv(s, a);
    forall c | 0 <= c < |t.workers| ensures AttemptInv(t, c) && AttemptExtends(s, t, c) {
      assert AttemptInv(s, c);
    }
    forall k | 0 <= k < |t.calls| ensures CallInv(t, t.calls[k]) {
      assert CallInv(s, s.calls[k]);
    }
  }

  lemma WorkerKeepsInv(s: State, a: nat, b: WorkerBranch)
    requires Inv(s) && a < |s.workers| && WorkerNext(s, a, b).Some?
    ensures Inv(WorkerNext(s, a, b).value) && Extends(s, WorkerNext(s, a, b).value)
  {
    if s.workers[a].Requested? {
      SettleRequestKeepsInv(s, a);
    } else if s.workers[a].SettleForced? {
      SettleForcedKeepsInv(s, a);
    } else if s.workers[a].Settle? {
      SettleKeepsInv(s, a);
    } else {
      assert AttemptInv(s, a);
      var t := WorkerNext(s, a, b).value;
      assert t == Stepped(s, a, t.workers[a]);
      WorkerMoveKeepsInv(s, a, t.workers[a]);
    }
  }

  lemma ForcerKeepsInv(s: State)
    requires Inv(s) && ForcerNext(s).Some?
    ensures Inv(ForcerNext(s).value) && Extends(s, ForcerNext(s).value)
  {
    var t := ForcerNext(s).value;
    forall a | 0 <= a < |t.workers|
      ensures AttemptInv(t, a) && AttemptExtends(s, t, a) && (s.forcer.AwaitHandoff? ==> !Pending(t.workers[a]))
    {
      assert AttemptInv(s, a);
    }
    forall k | 0 <= k < |t.calls| ensures CallInv(t, t.calls[k]) {
      assert CallInv(s, s.calls[k]);
    }
  }

  /** A new call arrives. */
  lemma ArrivalKeepsInv(s: State, e: Event)
    requires Inv(s) && Next(s, e).Some? && e.Arrive?
    ensures Inv(Next(s, e).value) && Extends(s, Next(s, e).value)
  {
    var t := Next(s, e).value;
    forall a | 0 <= a < |t.workers| ensures AttemptInv(t, a) && AttemptExtends(s, t, a) {
      assert AttemptInv(s, a);
    }
    forall k | 0 <= k < |t.calls| ensures CallInv(t, t.calls[k]) {
      if k < |s.calls| { assert CallInv(s, s.calls[k]); }
    }
  }

  /** The exit waiter publishes the exit of the child. */
  lemma WaiterKeepsInv(s: State, e: Event)
    requires Inv(s) && Next(s, e).Some? && e == WaiterProceed
    ensures Inv(Next(s, e).value) && Extends(s, Next(s, e).value)
  {
    var t := Next(s, e).value;
    forall a | 0 <= a < |t.workers| ensures AttemptInv(t, a) && AttemptExtends(s, t, a) {
      assert AttemptInv(s, a);
    }
    forall k | 0 <= k < |t.calls| ensures CallInv(t, t.calls[k]) {
      if k < |s.calls| { assert CallInv(s, s.calls[k]); }
    }
  }

  /** The child exits, ForceStop returns or a deadline fires. */
  lemma EnvironmentKeepsInv(s: State, e: Event)
    requires Inv(s) && Next(s, e).Some? && (e == ChildExits || e.ForceStopReturns? || e.DeadlineFires?)
    ensures Inv(Next(s, e).value) && Extends(s, Next(s, e).value)
  {
    var t := Next(s, e).value;
    forall a | 0 <= a < |t.workers| ensures AttemptInv(t, a) && AttemptExtends(s, t, a) {
      assert AttemptInv(s, a);
    }
    forall k | 0 <= k < |t.calls| ensures CallInv(t, t.calls[k]) {
      if k < |s.calls| { assert CallInv(s, s.calls[k]); }
    }
  }

  lemma CallKeepsInv(s: State, i: nat, b: CallBranch)
    requires Inv(s) && i < |s.calls| && ReportedNext(s, i, b).Some?
    ensures Inv(ReportedNext(s, i, b).value) && Extends(s, ReportedNext(s, i, b).value)
  {
    if IsQuery(s.calls[i]) { QueryKeepsInv(s, i, b); } else { StopCallKeepsInv(s, i, b); }
    ReportKeepsInv(s, CallNext(s, i, b).value, ReportedNext(s, i, b).value);
  }

  /** A report changes nothing that the invariant speaks of. */
  lemma ReportKeepsInv(s: State, m: State, t: State)
    requires Inv(m) && Extends(s, m) && t == m.(infos := t.infos) && |t.infos| == |m.infos|
    requires forall i :: 0 <= i < |s.infos| ==> InfoExtends(s, t, i)
    ensures Inv(t) && Extends(s, t)
  {
    forall a | 0 <= a < |t.workers| ensures AttemptInv(t, a) && (a < |s.workers| ==> AttemptExtends(s, t, a)) {
      assert AttemptInv(m, a);
      assert a < |s.workers| ==> AttemptExtends(s, m, a);
    }
    forall k | 0 <= k < |t.calls| ensures CallInv(t, t.calls[k]) {
      assert CallInv(m, m.calls[k]);
    }
  }

  /** Every step keeps the run invariant and takes nothing back. */
  lemma StepKeepsInv(s: State, e: Event)
    requires Inv(s) && Next(s, e).Some?
    ensures Inv(Next(s, e).value) && Extends(s, Next(s, e).value)
  {
    match e {
      case Call(i, b) => CallKeepsInv(s, i, b);
      case Worker(a, b) => WorkerKeepsInv(s, a, b);
      case ForcerProceed => ForcerKeepsInv(s);
      case Arrive(_, _) => ArrivalKeepsInv(s, e);
      case WaiterProceed => WaiterKeepsInv(s, e);
      case _ => EnvironmentKeepsInv(s, e);
    }
  }
}
