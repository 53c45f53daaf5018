/**
  The goroutine of `Supervise` from the moment its run exists to the release of the lifetime lock
  (internal/supervisor/supervisor.go), over the stop protocol: the end of startup,
  `waitForTermination`, the shutdown of the control server, and the deferred force of an error return.
  Its own stop calls are calls of the protocol, under a background context.
 */
module SuperviseProtocol {
  import opened Model
  import opened Wrappers
  import opened StopProtocol
  import StopLiveness
  import StopReports

  datatype Pc =
    | StartingUp            // the run exists, startup may still fail
    | Waiting               // in the select of waitForTermination
    | InStop(i: nat)        // a signal came: in the own graceful stop, call `i`
    | InForce(i: nat)       // that failed, or the context ended: in the own force
    | ReceiveExit           // about to receive from `done`
    | StoppingServer        // the exit was received, the control server is stopped
    | InCompleted(i: nat)   // in completedForceError
    | InDeferred(i: nat)    // startup failed: the deferred call is in its force
    | Releasing             // all that is left is the deferred release of the lifetime lock

  datatype State = Supervising(run: StopProtocol.State, pc: Pc)

  /** Which way the supervisor goes: how startup ends, and which case of the select fires. */
  datatype Branch = Go | StartupFails | ContextEnds | SignalComes

  datatype Event = RunEvent(e: StopProtocol.Event) | Supervisor(b: Branch)

  function Initial(st: RunState): State
    requires st == Running || st == Paused
  {
    Supervising(StopProtocol.Initial(st), StartingUp)
  }

  /** The supervisor enters a call of its own, which will be the last one so far. */
  function Enters(s: State, entry: CallPc, pc: Pc): State {
    Supervising(Arrived(s.run, entry, true), pc)
  }

  predicate HasReturned(run: StopProtocol.State, i: nat) {
    i < |run.calls| && run.calls[i].Returned?
  }

  function SupervisorNext(s: State, b: Branch): Option<State> {
    var own := |s.run.calls|;
    match s.pc
    case StartingUp =>
      // Readiness is reported only while the run is not terminal; every error is returned.
      if b == Go && !s.run.shared.terminal then Some(s.(pc := Waiting))
      else if b == StartupFails then Some(Enters(s, EnterForce, InDeferred(own))) else None
    case Waiting =>
      if b == Go && s.run.shared.done > 0 then Some(s.(pc := ReceiveExit))
      else if b == ContextEnds then Some(Enters(s, EnterForce, InForce(own)))
      else if b == SignalComes then Some(Enters(s, EnterGraceful, InStop(own))) else None
    case InStop(i) =>
      if b != Go || !HasReturned(s.run, i) then None
      else if s.run.calls[i].result == Nil then Some(s.(pc := ReceiveExit))
      else Some(Enters(s, EnterForce, InForce(own)))
    // The error of the force is dropped here, and joined to the result below.
    case InForce(i) => if b == Go && HasReturned(s.run, i) then Some(s.(pc := ReceiveExit)) else None
    case ReceiveExit => if b == Go && s.run.shared.done > 0 then Some(s.(pc := StoppingServer)) else None
    case StoppingServer => if b == Go then Some(Enters(s, EnterCompleted, InCompleted(own))) else None
    case InCompleted(i) =>
      if b == Go && i < |s.run.calls| && s.run.calls[i].CompletedReturned? then Some(s.(pc := Releasing)) else None
    case InDeferred(i) => if b == Go && HasReturned(s.run, i) then Some(s.(pc := Releasing)) else None
    case Releasing => None
  }

  function Next(s: State, e: Event): Option<State> {
    match e
    case RunEvent(r) =>
      (match StopProtocol.Next(s.run, r)
       case None => None
       case Some(run) => Some(s.(run := run)))
    case Supervisor(b) => SupervisorNext(s, b)
  }

  function Exec(s: State, es: seq<Event>): Option<State>
    decreases |es|
  {
    if es == [] then Some(s)
    else match Next(s, es[0])
      case None => None
      case Some(t) => Exec(t, es[1..])
  }

  // ---------- The invariant ----------

  /** Call `i` is the supervisor's own, entered at `entry`. */
  predicate Owns(run: StopProtocol.State, i: nat, entry: CallPc) {
    i < |run.calls| && i < |run.infos| && run.infos[i].entry == entry && run.infos[i].background
  }

  predicate PcInv(s: State) {
    match s.pc
    case InStop(i) => Owns(s.run, i, EnterGraceful)
    case InForce(i) => Owns(s.run, i, EnterForce)
    case InDeferred(i) => Owns(s.run, i, EnterForce)
    case InCompleted(i) => Owns(s.run, i, EnterCompleted) && s.run.shared.done == 1
    case ReceiveExit => s.run.shared.done == 1
    case StoppingServer => s.run.shared.done == 1
    case Releasing => s.run.shared.done == 1
    case _ => true
  }

  ghost predicate Inv(s: State) {
    StopProtocol.Inv(s.run) && StopReports.InfosInv(s.run) && PcInv(s)
  }

  lemma InitialInv(st: RunState)
    requires st == Running || st == Paused
    ensures Inv(Initial(st))
  {
  }

  lemma EntryKeepsInv(run: StopProtocol.State, entry: CallPc)
    requires StopProtocol.Inv(run) && StopReports.InfosInv(run) && EntryPoint(entry)
    ensures var t := Arrived(run, entry, true);
      && StopProtocol.Inv(t) && StopReports.InfosInv(t) && Owns(t, |run.calls|, entry)
      && t.shared == run.shared
  {
    StopProtocol.StepKeepsInv(run, Arrive(entry, true));
    StopReports.StepKeepsReports(run, Arrive(entry, true));
  }

  /** A forced call that has returned was told so by the force, which ends after the exit. */
  lemma ForcedReturn(run: StopProtocol.State, i: nat)
    requires StopProtocol.Inv(run) && StopReports.InfosInv(run)
    requires Owns(run, i, EnterForce) && run.calls[i].Returned?
    ensures run.shared.done == 1
  {
    assert StopReports.InfoInv(run, i);
  }

  lemma NilReturn(run: StopProtocol.State, i: nat)
    requires StopProtocol.Inv(run) && i < |run.calls| && run.calls[i] == Returned(Nil)
    ensures run.shared.done == 1
  {
    assert StopProtocol.CallInv(run, run.calls[i]);
  }

  lemma SupervisorKeepsInv(s: State, b: Branch)
    requires Inv(s) && SupervisorNext(s, b).Some?
    ensures Inv(SupervisorNext(s, b).value)
  {
    EntryKeepsInv(s.run, EnterForce);
    EntryKeepsInv(s.run, EnterGraceful);
    EntryKeepsInv(s.run, EnterCompleted);
    var pc := s.pc;
    if pc.InStop? && s.run.calls[pc.i].result == Nil {
      NilReturn(s.run, pc.i);
    } else if pc.InForce? || pc.InDeferred? {
      ForcedReturn(s.run, pc.i);
    }
  }

  lemma RunEventKeepsInv(s: State, e: StopProtocol.Event)
    requires Inv(s) && StopProtocol.Next(s.run, e).Some?
    ensures Inv(s.(run := StopProtocol.Next(s.run, e).value))
  {
    StopProtocol.StepKeepsInv(s.run, e);
    StopReports.StepKeepsReports(s.run, e);
    var run := StopProtocol.Next(s.run, e).value;
    var pc := s.pc;
    if pc.InStop? || pc.InForce? || pc.InCompleted? || pc.InDeferred? {
      assert InfoExtends(s.run, run, pc.i);
    }
    assert run.shared.done <= 1;
  }

  /** Every step of the supervisor and of the run keeps the invariant. */
  lemma StepKeepsInv(s: State, e: Event)
    requires Inv(s) && Next(s, e).Some?
    ensures Inv(Next(s, e).value)
  {
    match e {
      case RunEvent(r) => RunEventKeepsInv(s, r);
      case Supervisor(b) => SupervisorKeepsInv(s, b);
    }
  }

  /** No step takes back what the run has published or reported. */
  lemma StepExtends(s: State, e: Event)
    requires Inv(s) && Next(s, e).Some?
    ensures Extends(s.run, Next(s, e).value.run)
  {
    match e {
      case RunEvent(r) => StopProtocol.StepKeepsInv(s.run, r);
      case Supervisor(b) => SupervisorExtends(s, b);
    }
  }

  /** A step of the supervisor leaves the run alone or enters a call. */
  lemma SupervisorExtends(s: State, b: Branch)
    requires Inv(s) && SupervisorNext(s, b).Some?
    ensures Extends(s.run, SupervisorNext(s, b).value.run)
  {
    var t := SupervisorNext(s, b).value;
    if t.run == s.run {
      ExtendsItself(s.run);
    } else {
      var entry := if t.pc.InStop? then EnterGraceful else if t.pc.InCompleted? then EnterCompleted else EnterForce;
      assert t.run == Arrived(s.run, entry, true);
      StopProtocol.StepKeepsInv(s.run, Arrive(entry, true));
    }
  }

  lemma ExtendsItself(run: StopProtocol.State)
    requires StopProtocol.Inv(run)
    ensures Extends(run, run)
  {
    forall a | 0 <= a < |run.workers| ensures AttemptExtends(run, run, a) {
      assert AttemptInv(run, a);
    }
  }

  /** Another call of the run leaves the supervisor where it is. */
  lemma EntryExtends(s: State, entry: CallPc)
    requires Inv(s) && EntryPoint(entry)
    ensures var t := s.(run := Arrived(s.run, entry, true));
      Inv(t) && Extends(s.run, t.run) && Owns(t.run, |s.run.calls|, entry)
  {
    RunEventKeepsInv(s, Arrive(entry, true));
    StopProtocol.StepKeepsInv(s.run, Arrive(entry, true));
  }

  lemma {:induction false} RunKeepsInv(s: State, es: seq<Event>)
    requires Inv(s) && Exec(s, es).Some?
    ensures Inv(Exec(s, es).value)
    decreases |es|
  {
    if es != [] {
      StepKeepsInv(s, es[0]);
      RunKeepsInv(Next(s, es[0]).value, es[1..]);
    }
  }

  ghost predicate Reachable(t: State) {
    exists st, es :: (st == Running || st == Paused) && Exec(Initial(st), es) == Some(t)
  }

  lemma ReachableInv(t: State)
    requires Reachable(t)
    ensures Inv(t)
  {
    var st, es :| (st == Running || st == Paused) && Exec(Initial(st), es) == Some(t);
    RunKeepsInv(Initial(st), es);
  }

  /**
    Every exit of Supervise, after a signal, a cancelled context or the child's own end, and on every
    error return through the deferred force, whatever its force returned: when nothing is left but the
    release of the lifetime lock, the child's exit has been published and the child is gone.
   */
  lemma ReleaseMeansExited(t: State)
    requires Reachable(t) && t.pc == Releasing
    ensures t.run.shared.done == 1 && t.run.shared.terminal && t.run.childExited
  {
    ReachableInv(t);
  }

  /** The control server is stopped only after the exit was published. */
  lemma ServerStopMeansExited(t: State)
    requires Reachable(t) && t.pc == StoppingServer
    ensures t.run.shared.done == 1 && t.run.childExited
  {
    ReachableInv(t);
  }

  // ---------- The release is reached ----------

  /** The steps that are bound to happen: those of the run, and the supervisor's own outside its select. */
  predicate Owed(s: State, e: Event) {
    match e
    case RunEvent(r) => StopLiveness.Owed(s.run, r)
    case Supervisor(b) => b == Go && s.pc != StartingUp && s.pc != Waiting
  }

  ghost predicate Progresses(s: State) {
    exists e :: Owed(s, e) && Next(s, e).Some?
  }

  /** Each own call still to come is counted with the rank at which it enters. */
  function Rank(pc: Pc): nat {
    match pc
    case StartingUp => 60
    case Waiting => 50
    case InStop(_) => 25
    case InForce(_) => 10
    case ReceiveExit => 8
    case StoppingServer => 6
    case InCompleted(_) => 1
    case InDeferred(_) => 1
    case Releasing => 0
  }

  function Measure(s: State): nat {
    StopLiveness.Measure(s.run) + Rank(s.pc)
  }

  lemma ArrivalCosts(run: StopProtocol.State, entry: CallPc)
    ensures StopLiveness.Measure(Arrived(run, entry, true)) == StopLiveness.Measure(run) + StopLiveness.CallRank(entry)
  {
    assert (run.calls + [entry])[..|run.calls|] == run.calls;
  }

  lemma EntryCosts(s: State, entry: CallPc, pc: Pc)
    ensures Measure(Enters(s, entry, pc)) == Measure(s) - Rank(s.pc) + Rank(pc) + StopLiveness.CallRank(entry)
  {
    ArrivalCosts(s.run, entry);
  }

  lemma SupervisorDecreases(s: State, b: Branch)
    requires SupervisorNext(s, b).Some?
    ensures Measure(SupervisorNext(s, b).value) < Measure(s)
  {
    var t := SupervisorNext(s, b).value;
    if t.run == s.run {
      assert Measure(t) == StopLiveness.Measure(s.run) + Rank(t.pc);
    } else if t.pc.InStop? {
      EntryCosts(s, EnterGraceful, t.pc);
    } else if t.pc.InCompleted? {
      EntryCosts(s, EnterCompleted, t.pc);
    } else {
      EntryCosts(s, EnterForce, t.pc);
    }
  }

  predicate IsArrival(e: Event) {
    e.RunEvent? && e.e.Arrive?
  }

  /** Every step other than the arrival of another caller decreases the measure. */
  lemma StepDecreases(s: State, e: Event)
    requires Inv(s) && !IsArrival(e) && Next(s, e).Some?
    ensures Measure(Next(s, e).value) < Measure(s)
  {
    match e {
      case RunEvent(r) => StopLiveness.StepDecreases(s.run, r);
      case Supervisor(b) => SupervisorDecreases(s, b);
    }
  }

  /** A call the supervisor waits for returns, or something is bound to happen. */
  lemma OwnCallProgresses(s: State, i: nat, entry: CallPc)
    requires Inv(s) && Owns(s.run, i, entry) && !CallFinished(s.run.calls[i])
    ensures Progresses(s)
  {
    StopLiveness.CallProgresses(s.run, i);
    var r :| StopLiveness.Owed(s.run, r) && StopProtocol.Next(s.run, r).Some?;
    assert Owed(s, RunEvent(r)) && Next(s, RunEvent(r)).Some?;
  }

  /** Once past the select, or on an error return, the supervisor is never stuck before the release. */
  lemma NeverStuck(s: State)
    requires Inv(s) && s.pc != StartingUp && s.pc != Waiting && s.pc != Releasing
    ensures Progresses(s)
  {
    var pc := s.pc;
    if pc.InStop? || pc.InForce? || pc.InCompleted? || pc.InDeferred? {
      assert StopReports.InfoInv(s.run, pc.i);
      if !CallFinished(s.run.calls[pc.i]) {
        OwnCallProgresses(s, pc.i, s.run.infos[pc.i].entry);
        return;
      }
    }
    assert Owed(s, Supervisor(Go)) && Next(s, Supervisor(Go)).Some?;
  }

  /** The supervisor never goes back to its select. */
  predicate PastSelect(pc: Pc) {
    pc != StartingUp && pc != Waiting
  }

  /**
    From any point past the select, every run in which no other caller arrives has at most
    `Measure(s)` steps, and one that can go no further has reached the release.
   */
  lemma {:induction false} ReleaseIsReached(s: State, es: seq<Event>)
    requires Inv(s) && PastSelect(s.pc) && Exec(s, es).Some? && forall e :: e in es ==> !IsArrival(e)
    ensures |es| + Measure(Exec(s, es).value) <= Measure(s)
    ensures !Progresses(Exec(s, es).value) ==> Exec(s, es).value.pc == Releasing
    decreases |es|
  {
    if es == [] {
      if s.pc != Releasing { NeverStuck(s); }
    } else {
      var t := Next(s, es[0]).value;
      StepKeepsInv(s, es[0]);
      StepDecreases(s, es[0]);
      ReleaseIsReached(t, es[1..]);
    }
  }
}
