/**
  The mutex-guarded object of internal/supervisor/run.go.  Each method is one critical section, with
  the assignments in the order the code makes them, taken by a goroutine that is at the program point
  the protocol has for it.  The object carries the state of the whole protocol as a ghost: a section is
  a step of `StopProtocol`, so what every run of the protocol satisfies holds of the object.
 */
module SupervisedRun {
  import opened Model
  import opened Wrappers
  import opened StopProtocol

  // ---------- The sections as steps of the protocol ----------

  lemma CallStep(w: State, i: nat)
    requires Inv(w) && i < |w.calls| && CallNext(w, i, Proceed).Some?
    ensures Next(w, Call(i, Proceed)).Some?
    ensures var t := Next(w, Call(i, Proceed)).value;
      && Inv(t) && Extends(w, t) && |t.calls| == |w.calls| && t.shared == CallNext(w, i, Proceed).value.shared
      && t.calls[i] == CallNext(w, i, Proceed).value.calls[i] && t.workers == CallNext(w, i, Proceed).value.workers
      && t.forcer == CallNext(w, i, Proceed).value.forcer && t.childExited == w.childExited
  {
    CallKeepsInv(w, i, Proceed);
  }

  lemma WorkerStep(w: State, a: nat)
    requires Inv(w) && a < |w.workers| && WorkerNext(w, a, WorkerProceed).Some?
    ensures Next(w, Worker(a, WorkerProceed)) == WorkerNext(w, a, WorkerProceed)
    ensures var t := WorkerNext(w, a, WorkerProceed).value; Inv(t) && Extends(w, t)
  {
    WorkerKeepsInv(w, a, WorkerProceed);
  }

  /** Without a current attempt no request is in flight, and none was ever accepted. */
  lemma NothingPending(w: State)
    requires Inv(w) && w.shared.graceful.None?
    ensures forall a :: 0 <= a < |w.workers| ==> !Pending(w.workers[a]) && !w.shared.attempts[a].accepted
  {
    forall a | 0 <= a < |w.workers| ensures !Pending(w.workers[a]) && !w.shared.attempts[a].accepted {
      assert AttemptInv(w, a);
    }
  }

  /** What the entry of a graceful stop stands for: a second attempt only when nothing came of the others. */
  lemma GracefulEnters(w: State, i: nat)
    requires Inv(w) && i < |w.calls| && w.calls[i] == CallPc.EnterGraceful
    ensures CallNext(w, i, Proceed).Some?
    ensures var t := CallNext(w, i, Proceed).value;
      && |t.calls| == |w.calls| && (t.shared, t.calls[i]) == EnterGracefulSection(w.shared)
      && (|t.workers| > |w.workers| <==> |t.shared.attempts| > |w.shared.attempts|)
      && (|t.shared.attempts| > |w.shared.attempts| ==>
            forall a :: 0 <= a < |w.workers| ==> !Pending(w.workers[a]) && !w.shared.attempts[a].accepted)
  {
    if w.shared.graceful.None? { NothingPending(w); }
  }

  /** What a settled request stands for. */
  lemma RequestSettles(w: State, a: nat, err: Outcome)
    requires Inv(w) && a < |w.workers| && w.workers[a] == Requested(err)
    ensures WorkerNext(w, a, WorkerProceed).Some?
    ensures var t := WorkerNext(w, a, WorkerProceed).value;
      && |t.workers| == |w.workers| && (t.shared, t.workers[a]) == SettleRequestSection(w.shared, a, err)
      && !Pending(t.workers[a]) && t.shared.attempts[a].request == 1 && (t.shared.attempts[a].accepted <==> err == Nil)
      && (err == Nil && !t.shared.forceStarted ==> t.shared.stopping && t.shared.graceful == Some(a))
  {
    assert AttemptInv(w, a);
  }

  /** What the start of a force stands for: it happens once, and finishes the context of the pending attempt. */
  lemma ForceStarts(w: State, i: nat)
    requires Inv(w) && i < |w.calls| && w.calls[i] == CallPc.EnterForce
    ensures CallNext(w, i, Proceed).Some?
    ensures var t := CallNext(w, i, Proceed).value;
      && t.shared == EnterForceSection(w.shared) && (w.shared.forceStarted <==> w.forcer != Idle)
      && t.forcer == (if w.shared.forceStarted then w.forcer else AwaitHandoff(w.shared.graceful))
      && (!w.shared.forceStarted && w.shared.graceful.Some? ==>
            var a := w.shared.graceful.value; a < |t.shared.attempts| && t.shared.attempts[a].ctx != Live)
  {
  }

  class Run {
    var intentional: bool
    var stopping: bool
    var terminal: bool
    var state: RunState
    var done: nat
    var graceful: Option<nat>
    var gracefulCancel: Option<nat>
    var forceStarted: bool
    var forceDone: nat
    var forceErr: Outcome
    var attempts: seq<Attempt>

    /** The goroutines around the object and the child. */
    ghost var world: State

    /** The guarded fields as one value. */
    function View(): Shared
      reads `intentional, `stopping, `terminal, `state, `done, `graceful, `gracefulCancel
      reads `forceStarted, `forceDone, `forceErr, `attempts
    {
      Shared(intentional, stopping, terminal, state, done, graceful, gracefulCancel,
             forceStarted, forceDone, forceErr, attempts)
    }

    ghost predicate Valid()
      reads this
    {
      Inv(world) && View() == world.shared
    }

    /** No goroutine but the exit waiter is there yet. */
    constructor (initial: RunState)
      requires initial == Running || initial == Paused
      ensures Valid() && world == Initial(initial)
    {
      intentional, stopping, terminal, state, done := false, false, false, initial, 0;
      graceful, gracefulCancel := None, None;
      forceStarted, forceDone, forceErr := false, 0, Nil;
      attempts := [];
      world := Initial(initial);
    }

    /** Anything else that happens: calls arrive, channels are received from, the backend answers. */
    ghost method Elsewhere(e: Event)
      requires Valid() && Next(world, e).Some? && Next(world, e).value.shared == world.shared
      modifies `world
      ensures Valid() && Next(old(world), e) == Some(world) && Extends(old(world), world)
    {
      StepKeepsInv(world, e);
      world := Next(world, e).value;
    }

    /** The deadline of attempt `a`, which no mutex guards, passes. */
    method DeadlineFires(a: nat)
      requires Valid() && Next(world, Event.DeadlineFires(a)).Some?
      modifies `attempts, `world
      ensures Valid() && Next(old(world), Event.DeadlineFires(a)) == Some(world) && Extends(old(world), world)
    {
      StepKeepsInv(world, Event.DeadlineFires(a));
      attempts := attempts[a := attempts[a].(ctx := DeadlineExceeded)];
      world := Next(world, Event.DeadlineFires(a)).value;
    }

    /** The assignments of the section in which a graceful stop enters. */
    method JoinAttempt() returns (next: CallPc, spawned: bool)
      modifies `graceful, `gracefulCancel, `attempts
      ensures (View(), next) == EnterGracefulSection(old(View()))
      ensures spawned <==> |attempts| > |old(attempts)|
    {
      if forceStarted {
        return AwaitForceDone, false;
      }
      var attempt := graceful;
      spawned := false;
      if attempt.None? {
        attempt := Some(|attempts|);
        attempts := attempts + [Attempt(Live, 0, 0, false, Nil)];
        graceful := attempt;
        gracefulCancel := attempt;
        spawned := true;
      }
      next := AwaitRequest(attempt.value);
    }

    /**
      Call `i` joins the current attempt or creates one; `spawned` tells it to start the goroutine.
      There is never a second attempt while a request is pending or after one was accepted.
     */
    method EnterGraceful(ghost i: nat) returns (next: CallPc, spawned: bool)
      requires Valid() && i < |world.calls| && world.calls[i] == CallPc.EnterGraceful
      modifies this
      ensures Valid() && Next(old(world), Call(i, Proceed)) == Some(world) && Extends(old(world), world)
      ensures next == world.calls[i]
      ensures spawned <==> |world.workers| > |old(world.workers)|
      ensures spawned ==> forall a :: 0 <= a < |old(attempts)| ==>
        !Pending(old(world.workers)[a]) && !old(attempts)[a].accepted
    {
      ghost var t := Next(world, Call(i, Proceed)).value;
      CallStep(world, i);
      GracefulEnters(world, i);
      next, spawned := JoinAttempt();
      world := t;
    }

    /** The assignments of the section in which a force starts. */
    method RaiseForce() returns (started: bool, handoff: Option<nat>)
      modifies `forceStarted, `intentional, `stopping, `state, `attempts
      ensures View() == EnterForceSection(old(View()))
      ensures started == !old(forceStarted) && handoff == if started then graceful else None
    {
      started, handoff := !forceStarted, None;
      if started {
        forceStarted := true;
        intentional := true;
        stopping := true;
        state := Stopping;
        handoff := graceful;
        if gracefulCancel.Some? && gracefulCancel.value < |attempts| {
          attempts := attempts[gracefulCancel.value := Cancel(attempts[gracefulCancel.value])];
        }
      }
    }

    /**
      Call `i` starts the force, once; `handoff` is the attempt whose request the goroutine of the
      force waits for, whose context is finished by now.
     */
    method EnterForce(ghost i: nat) returns (started: bool, handoff: Option<nat>)
      requires Valid() && i < |world.calls| && world.calls[i] == CallPc.EnterForce
      modifies this
      ensures Valid() && Next(old(world), Call(i, Proceed)) == Some(world) && Extends(old(world), world)
      ensures forceStarted && (started <==> old(world.forcer) == Idle)
      ensures started ==> world.forcer == AwaitHandoff(handoff)
      ensures handoff.Some? ==> handoff.value < |attempts| && attempts[handoff.value].ctx != Live
    {
      ghost var t := Next(world, Call(i, Proceed)).value;
      CallStep(world, i);
      ForceStarts(world, i);
      started, handoff := RaiseForce();
      world := t;
    }

    /** The assignments of the section after RequestShutdown. */
    method StoreVerdict(a: nat, err: Outcome) returns (next: WorkerPc)
      requires a < |attempts|
      modifies `attempts, `graceful, `gracefulCancel, `intentional, `stopping, `state
      ensures (View(), next) == SettleRequestSection(old(View()), a, err)
    {
      attempts := attempts[a := attempts[a].(accepted := err == Nil)];
      attempts := attempts[a := attempts[a].(request := attempts[a].request + 1)];
      assert attempts == old(attempts)[a := attempts[a]];
      if forceStarted {
        return AwaitForce;
      }
      if err != Nil {
        var verdict := err;
        if attempts[a].ctx == DeadlineExceeded {
          verdict := TimedOut;
        }
        attempts := attempts[a := attempts[a].(err := verdict)];
        if graceful == Some(a) {
          graceful := None;
          gracefulCancel := None;
        }
        attempts := attempts[a := attempts[a].(done := attempts[a].done + 1)];
        assert attempts == old(attempts)[a := attempts[a]];
        return WorkerFinished;
      }
      intentional := true;
      stopping := true;
      state := Stopping;
      next := AwaitExit;
    }

    /**
      RequestShutdown returned `err` to the goroutine of attempt `a`: its verdict is published once, and
      an accepted request is the current attempt for good.
     */
    method SettleRequest(a: nat, err: Outcome) returns (next: WorkerPc)
      requires Valid() && a < |world.workers| && world.workers[a] == Requested(err)
      modifies this
      ensures Valid() && Next(old(world), Worker(a, WorkerProceed)) == Some(world) && Extends(old(world), world)
      ensures next == world.workers[a] && !Pending(next)
      ensures attempts[a].request == 1 && (attempts[a].accepted <==> err == Nil)
      ensures err == Nil && !forceStarted ==> stopping && graceful == Some(a)
    {
      ghost var t := Next(world, Worker(a, WorkerProceed)).value;
      WorkerStep(world, a);
      RequestSettles(world, a, err);
      next := StoreVerdict(a, err);
      world := t;
    }

    /**
      The goroutine of attempt `a` publishes its final error, `err` or that of the force, and closes the
      channel: once, and a nil error only after the child's exit was published.
     */
    method SettleAttempt(a: nat, err: Outcome)
      requires Valid() && a < |world.workers|
      requires world.workers[a] == Settle(err) || (world.workers[a] == SettleForced && err == forceErr)
      modifies this
      ensures Valid() && Next(old(world), Worker(a, WorkerProceed)) == Some(world) && Extends(old(world), world)
      ensures old(attempts)[a].done == 0 && attempts[a].done == 1 && attempts[a].err == err
      ensures err == Nil ==> done == 1 && world.childExited
    {
      ghost var t := Next(world, Worker(a, WorkerProceed)).value;
      WorkerStep(world, a);
      assert AttemptInv(world, a) && AttemptInv(t, a);
      attempts := attempts[a := attempts[a].(err := err)];
      attempts := attempts[a := attempts[a].(done := attempts[a].done + 1)];
      assert attempts == old(attempts)[a := attempts[a]];
      world := t;
    }

    /** The exit waiter publishes the child's exit, once, and only after it. */
    method PublishExit()
      requires Valid() && world.waiter == WaiterPc.PublishExit
      modifies this
      ensures Valid() && Next(old(world), WaiterProceed) == Some(world) && Extends(old(world), world)
      ensures old(done) == 0 && done == 1 && terminal && world.childExited
    {
      ghost var t := Next(world, WaiterProceed).value;
      StepKeepsInv(world, WaiterProceed);
      terminal := true;
      done := done + 1;
      world := t;
    }

    /**
      The force goroutine publishes the result of ForceStop, once: the exit has been published before it,
      whatever the result is, and no request is in flight any more.
     */
    method PublishForce(err: Outcome)
      requires Valid() && world.forcer == Publish(err)
      modifies this
      ensures Valid() && Next(old(world), ForcerProceed) == Some(world) && Extends(old(world), world)
      ensures old(forceDone) == 0 && forceDone == 1 && forceErr == err
      ensures done == 1 && terminal && world.childExited && forall a :: 0 <= a < |attempts| ==> attempts[a].request == 1
    {
      ghost var t := Next(world, ForcerProceed).value;
      StepKeepsInv(world, ForcerProceed);
      forceErr := err;
      forceDone := forceDone + 1;
      forall a | 0 <= a < |attempts| ensures attempts[a].request == 1 {
        assert AttemptInv(world, a);
      }
      world := t;
    }

    /** The second section of status query `i` answers with the state it leaves stored, stopping once a stop began. */
    method StoreStatus(ghost i: nat, backendState: RunState) returns (answer: RunState)
      requires Valid() && i < |world.calls| && world.calls[i] == CallPc.StoreStatus(backendState)
      modifies this
      ensures Valid() && Next(old(world), Call(i, Proceed)) == Some(world) && Extends(old(world), world)
      ensures world.calls[i] == StatusReturned(answer)
      ensures answer == state == (if stopping then Stopping else backendState)
    {
      ghost var t := Next(world, Call(i, Proceed)).value;
      CallStep(world, i);
      if !stopping {
        state := backendState;
      }
      answer := state;
      world := t;
    }
  }
}
