/**
  The stop protocol never deadlocks: a measure decreases with every step, and while a call or a
  goroutine is unfinished some step that is bound to happen is enabled.
 */
module StopLiveness {
  import opened Model
  import opened Wrappers
  import opened StopProtocol
  import opened StopSafety

  /**
    Steps the environment owes: goroutines run, RequestShutdown and ForceStop return, a deadline
    fires, and the child exits once ForceStop is under way.  A caller's own context need not end,
    new calls need not arrive, and the child need not exit by itself.
   */
  predicate Owed(s: State, e: Event) {
    && !e.Arrive?
    && !(e.Call? && e.branch == ContextDone)
    && (e == ChildExits ==> s.forcer == InForceStop)
  }

  /** Some step that is bound to happen is enabled. */
  ghost predicate Progresses(s: State) {
    exists e :: Owed(s, e) && Next(s, e).Some?
  }

  /** Every call has returned and every goroutine but the exit waiter has ended. */
  ghost predicate Quiet(s: State) {
    && (forall i :: 0 <= i < |s.calls| ==> CallFinished(s.calls[i]))
    && (forall a :: 0 <= a < |s.workers| ==> s.workers[a] == WorkerFinished)
    && (s.forcer == Idle || s.forcer == ForceFinished)
  }

  // ---------- The measure ----------

  function CallRank(pc: CallPc): nat {
    match pc
    case EnterGraceful => 20
    case EnterForce => 12
    case AwaitRequest(_) => 6
    case ReadAccepted(_) => 5
    case AwaitAttempt(_) => 4
    case ReadAttempt(_) => 3
    case AwaitForceDone => 2
    case ReadForceErr => 1
    case EnterCompleted => 3
    case AwaitCompleted => 2
    case ReadCompleted => 1
    case EnterStatus => 3
    case QueryBackend => 2
    case StoreStatus(_) => 1
    case _ => 0
  }

  function WorkerRank(pc: WorkerPc): nat {
    match pc
    case Spawned => 9
    case Requesting => 8
    case Requested(_) => 7
    case AwaitExit => 6
    case OnDeadline => 5
    case AwaitForceLate => 4
    case ReadForce => 3
    case AwaitForce => 3
    case SettleForced => 2
    case Settle(_) => 2
    case WorkerFinished => 0
  }

  function ForcerRank(pc: ForcePc): nat {
    match pc
    case AwaitHandoff(_) => 5
    case InForceStop => 4
    case AwaitDone(_) => 3
    case Publish(_) => 2
    case _ => 0
  }

  function WaiterRank(pc: WaiterPc): nat {
    match pc case AwaitChild => 2 case PublishExit => 1 case WaiterFinished => 0
  }

  function Calls(cs: seq<CallPc>): nat {
    if cs == [] then 0 else Calls(cs[..|cs| - 1]) + CallRank(cs[|cs| - 1])
  }

  function Workers(ws: seq<WorkerPc>): nat {
    if ws == [] then 0 else Workers(ws[..|ws| - 1]) + WorkerRank(ws[|ws| - 1])
  }

  function Deadlines(ats: seq<Attempt>): nat {
    if ats == [] then 0 else Deadlines(ats[..|ats| - 1]) + (if ats[|ats| - 1].ctx == Live then 1 else 0)
  }

  /** How many steps can still be taken, at most, when no new call arrives. */
  function Measure(s: State): nat {
    Calls(s.calls) + Workers(s.workers) + Deadlines(s.shared.attempts)
    + ForcerRank(s.forcer) + WaiterRank(s.waiter) + (if s.childExited then 0 else 1)
  }

  lemma {:induction false} CallsUpdate(cs: seq<CallPc>, i: nat, pc: CallPc)
    requires i < |cs|
    ensures Calls(cs[i := pc]) == Calls(cs) - CallRank(cs[i]) + CallRank(pc)
  {
    var n := |cs| - 1;
    if i == n {
      assert cs[i := pc][..n] == cs[..n];
    } else {
      assert cs[i := pc][..n] == cs[..n][i := pc];
      CallsUpdate(cs[..n], i, pc);
    }
  }

  lemma {:induction false} WorkersUpdate(ws: seq<WorkerPc>, a: nat, pc: WorkerPc)
    requires a < |ws|
    ensures Workers(ws[a := pc]) == Workers(ws) - WorkerRank(ws[a]) + WorkerRank(pc)
  {
    var n := |ws| - 1;
    if a == n {
      assert ws[a := pc][..n] == ws[..n];
    } else {
      assert ws[a := pc][..n] == ws[..n][a := pc];
      WorkersUpdate(ws[..n], a, pc);
    }
  }

  lemma {:induction false} DeadlinesUpdate(ats: seq<Attempt>, a: nat, at: Attempt)
    requires a < |ats| && (ats[a].ctx != Live ==> at.ctx != Live)
    ensures Deadlines(ats[a := at]) <= Deadlines(ats)
    ensures ats[a].ctx == Live && at.ctx != Live ==> Deadlines(ats[a := at]) < Deadlines(ats)
  {
    var n := |ats| - 1;
    if a == n {
      assert ats[a := at][..n] == ats[..n];
    } else {
      assert ats[a := at][..n] == ats[..n][a := at];
      DeadlinesUpdate(ats[..n], a, at);
    }
  }

  /** A new attempt adds one goroutine and one deadline. */
  lemma AttemptCosts(ws: seq<WorkerPc>, ats: seq<Attempt>, at: Attempt)
    requires at.ctx == Live
    ensures Workers(ws + [Spawned]) == Workers(ws) + WorkerRank(Spawned)
    ensures Deadlines(ats + [at]) == Deadlines(ats) + 1
  {
    assert (ws + [Spawned])[..|ws|] == ws && (ats + [at])[..|ats|] == ats;
  }

  lemma EnterGracefulDecreases(s: State, i: nat)
    requires i < |s.calls| && s.calls[i] == EnterGraceful
    ensures Measure(StopCallNext(s, i, Proceed).value) < Measure(s)
  {
    var (sh, pc) := EnterGracefulSection(s.shared);
    CallsUpdate(s.calls, i, pc);
    if |sh.attempts| > |s.shared.attempts| {
      AttemptCosts(s.workers, s.shared.attempts, Attempt(Live, 0, 0, false, Nil));
    }
  }

  lemma EnterForceDecreases(s: State, i: nat)
    requires Inv(s) && i < |s.calls| && s.calls[i] == EnterForce
    ensures Measure(StopCallNext(s, i, Proceed).value) < Measure(s)
  {
    CallsUpdate(s.calls, i, AwaitForceDone);
    if !s.shared.forceStarted && s.shared.gracefulCancel.Some? {
      var a := s.shared.gracefulCancel.value;
      DeadlinesUpdate(s.shared.attempts, a, Cancel(s.shared.attempts[a]));
    }
  }

  /** A stop call past its entry section only moves, to a point of smaller rank. */
  lemma StopCallMoves(s: State, i: nat, b: CallBranch)
    requires i < |s.calls| && s.calls[i] != EnterGraceful && s.calls[i] != EnterForce
    requires StopCallNext(s, i, b).Some?
    ensures var t := StopCallNext(s, i, b).value;
      |t.calls| == |s.calls| && t == Moved(s, i, t.calls[i]) && CallRank(t.calls[i]) < CallRank(s.calls[i])
  {
    var pc := s.calls[i];
    if pc.AwaitRequest? {
    } else if pc.AwaitAttempt? {
    } else if pc.AwaitForceDone? {
    } else {
    }
  }

  /** A query moves, and at most stores the backend's state. */
  lemma QueryMoves(s: State, i: nat, b: CallBranch)
    requires i < |s.calls| && QueryNext(s, i, b).Some?
    ensures var t := QueryNext(s, i, b).value;
      && |t.calls| == |s.calls| && t == Moved(s, i, t.calls[i]).(shared := t.shared)
      && t.shared.attempts == s.shared.attempts
      && CallRank(t.calls[i]) < CallRank(s.calls[i])
  {
    var pc := s.calls[i];
    if pc.EnterCompleted? {
    } else if pc.EnterStatus? {
    } else if pc.QueryBackend? {
    } else if pc.StoreStatus? {
    } else {
    }
  }

  lemma CallDecreases(s: State, i: nat, b: CallBranch)
    requires Inv(s) && i < |s.calls| && CallNext(s, i, b).Some?
    ensures Measure(CallNext(s, i, b).value) < Measure(s)
  {
    if s.calls[i] == EnterGraceful {
      EnterGracefulDecreases(s, i);
    } else if s.calls[i] == EnterForce {
      EnterForceDecreases(s, i);
    } else {
      var t := CallNext(s, i, b).value;
      if IsQuery(s.calls[i]) { QueryMoves(s, i, b); } else { StopCallMoves(s, i, b); }
      CallsUpdate(s.calls, i, t.calls[i]);
    }
  }

  /** A worker step replaces one program counter by one of smaller rank and keeps its deadline. */
  lemma WorkerMoves(s: State, a: nat, b: WorkerBranch)
    requires a < |s.workers| == |s.shared.attempts| && WorkerNext(s, a, b).Some?
    ensures var t := WorkerNext(s, a, b).value;
      && |t.workers| == |s.workers| && |t.shared.attempts| == |s.shared.attempts|
      && t.workers == s.workers[a := t.workers[a]] && WorkerRank(t.workers[a]) < WorkerRank(s.workers[a])
      && t.shared.attempts == s.shared.attempts[a := t.shared.attempts[a]]
      && t.shared.attempts[a].ctx == s.shared.attempts[a].ctx
      && t.calls == s.calls && t.forcer == s.forcer && t.waiter == s.waiter && t.childExited == s.childExited
  {
    var pc := s.workers[a];
    if pc.Spawned? {
    } else if pc.Requesting? {
    } else if pc.Requested? {
    } else if pc.SettleForced? {
    } else if pc.Settle? {
    } else if pc.AwaitExit? {
    } else {
    }
  }

  lemma WorkerDecreases(s: State, a: nat, b: WorkerBranch)
    requires Inv(s) && a < |s.workers| && WorkerNext(s, a, b).Some?
    ensures Measure(WorkerNext(s, a, b).value) < Measure(s)
  {
    var t := WorkerNext(s, a, b).value;
    WorkerMoves(s, a, b);
    WorkersUpdate(s.workers, a, t.workers[a]);
    DeadlinesUpdate(s.shared.attempts, a, t.shared.attempts[a]);
  }

  /** Every step other than the arrival of a new call decreases the measure. */
  lemma StepDecreases(s: State, e: Event)
    requires Inv(s) && !e.Arrive? && Next(s, e).Some?
    ensures Measure(Next(s, e).value) < Measure(s)
  {
    match e {
      case Call(i, b) => CallDecreases(s, i, b);
      case Worker(a, b) => WorkerDecreases(s, a, b);
      case DeadlineFires(a) =>
        DeadlinesUpdate(s.shared.attempts, a, s.shared.attempts[a].(ctx := DeadlineExceeded));
      case _ =>
    }
  }

  // ---------- Deadlock freedom ----------

  /** An attempt that has not settled its request has an owed step of its own. */
  lemma PendingProgresses(s: State, a: nat)
    requires Inv(s) && a < |s.workers| && Pending(s.workers[a])
    ensures Progresses(s)
  {
    var e := if s.workers[a] == Requesting then Worker(a, RequestReturns(Nil)) else Worker(a, WorkerProceed);
    assert Owed(s, e) && Next(s, e).Some?;
  }

  /** A force that has started and not finished has an owed step: its own, the child's or the exit waiter's. */
  lemma ForceProgresses(s: State)
    requires Inv(s) && s.forcer != Idle && s.forcer != ForceFinished
    ensures Progresses(s)
  {
    var f := s.forcer;
    if f.AwaitHandoff? && f.attempt.Some? && s.shared.attempts[f.attempt.value].request == 0 {
      assert AttemptInv(s, f.attempt.value);
      PendingProgresses(s, f.attempt.value);
    } else {
      var e := if f == InForceStop then (if s.childExited then ForceStopReturns(Nil) else ChildExits)
               else if f.AwaitDone? && s.shared.done == 0 then WaiterProceed
               else ForcerProceed;
      assert Owed(s, e) && Next(s, e).Some?;
    }
  }

  lemma WorkerProgresses(s: State, a: nat)
    requires Inv(s) && a < |s.workers| && s.workers[a] != WorkerFinished
    ensures Progresses(s)
  {
    var pc := s.workers[a];
    assert AttemptInv(s, a);
    if Pending(pc) {
      PendingProgresses(s, a);
    } else if (pc == AwaitForce || pc == AwaitForceLate) && s.shared.forceDone == 0 {
      ForceProgresses(s);
    } else {
      var e := if pc != AwaitExit then Worker(a, WorkerProceed)
               else if s.shared.attempts[a].ctx == Live then DeadlineFires(a)
               else Worker(a, CtxDone);
      assert Owed(s, e) && Next(s, e).Some?;
    }
  }

  lemma CallProgresses(s: State, i: nat)
    requires Inv(s) && i < |s.calls| && !CallFinished(s.calls[i])
    ensures Progresses(s)
  {
    var pc := s.calls[i];
    assert CallInv(s, pc);
    if pc.AwaitRequest? && s.shared.attempts[pc.a].request == 0 {
      assert AttemptInv(s, pc.a);
      WorkerProgresses(s, pc.a);
    } else if pc.AwaitAttempt? && s.shared.attempts[pc.a].done == 0 {
      assert AttemptInv(s, pc.a);
      WorkerProgresses(s, pc.a);
    } else if (pc.AwaitForceDone? || pc.AwaitCompleted?) && s.shared.forceDone == 0 {
      ForceProgresses(s);
    } else {
      var e := Call(i, if pc == QueryBackend then BackendError else Proceed);
      assert Owed(s, e) && Next(s, e).Some?;
    }
  }

  /** A reachable state with an unfinished call or goroutine has an owed step enabled. */
  lemma NeverDeadlocks(s: State)
    requires Reachable(s)
    ensures Progresses(s) || Quiet(s)
  {
    ReachableInv(s);
    if i: nat :| i < |s.calls| && !CallFinished(s.calls[i]) {
      CallProgresses(s, i);
    } else if a: nat :| a < |s.workers| && s.workers[a] != WorkerFinished {
      WorkerProgresses(s, a);
    } else if s.forcer != Idle && s.forcer != ForceFinished {
      ForceProgresses(s);
    }
  }

  /**
    From every reachable state, a run in which no new call arrives has at most `Measure(s)` steps,
    and once no owed step is left every call has returned and every wait is released.
   */
  lemma {:induction false} AllWaitsReleased(s: State, es: seq<Event>)
    requires Reachable(s) && Exec(s, es).Some? && (forall e :: e in es ==> !e.Arrive?)
    ensures |es| + Measure(Exec(s, es).value) <= Measure(s)
    ensures !Progresses(Exec(s, es).value) ==> Quiet(Exec(s, es).value)
  {
    ReachableInv(s);
    MeasureBounds(s, es);
    var st, before :| (st == Running || st == Paused) && Exec(Initial(st), before) == Some(s);
    ExecConcat(Initial(st), before, es);
    NeverDeadlocks(Exec(s, es).value);
  }

  lemma {:induction false} MeasureBounds(s: State, es: seq<Event>)
    requires Inv(s) && Exec(s, es).Some? && (forall e :: e in es ==> !e.Arrive?)
    ensures |es| + Measure(Exec(s, es).value) <= Measure(s)
    decreases |es|
  {
    if es != [] {
      StepKeepsInv(s, es[0]);
      StepDecreases(s, es[0]);
      MeasureBounds(Next(s, es[0]).value, es[1..]);
    }
  }

  lemma {:induction false} ExecConcat(s: State, es: seq<Event>, fs: seq<Event>)
    requires Exec(s, es).Some?
    ensures Exec(s, es + fs) == Exec(Exec(s, es).value, fs)
    decreases |es|
  {
    if es == [] {
      assert es + fs == fs;
    } else {
      assert (es + fs)[1..] == es[1..] + fs;
      ExecConcat(Next(s, es[0]).value, es[1..], fs);
    }
  }
}
