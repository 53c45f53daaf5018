/** Safety of the stop protocol over whole runs, for any number of callers and any interleaving. */
module StopSafety {
  import opened Model
  import opened Wrappers
  import opened StopProtocol

  lemma {:induction false} ExtendsTransitive(s: State, m: State, t: State)
    requires Extends(s, m) && Extends(m, t)
    ensures Extends(s, t)
  {
    forall a | 0 <= a < |s.workers| ensures AttemptExtends(s, t, a) {
      assert AttemptExtends(s, m, a) && AttemptExtends(m, t, a);
    }
    forall i | 0 <= i < |s.calls| && i < |s.infos| ensures InfoExtends(s, t, i) {
      assert InfoExtends(s, m, i) && InfoExtends(m, t, i);
    }
  }

  /** Every run keeps the run invariant, and what it published stays published. */
  lemma {:induction false} RunKeepsInv(s: State, es: seq<Event>)
    requires Inv(s) && Exec(s, es).Some?
    ensures Inv(Exec(s, es).value) && Extends(s, Exec(s, es).value)
    decreases |es|
  {
    if es == [] {
      assert forall a :: 0 <= a < |s.workers| ==> AttemptExtends(s, s, a) by {
        forall a | 0 <= a < |s.workers| ensures AttemptExtends(s, s, a) { assert AttemptInv(s, a); }
      }
    } else {
      StepKeepsInv(s, es[0]);
      var m := Next(s, es[0]).value;
      RunKeepsInv(m, es[1..]);
      ExtendsTransitive(s, m, Exec(m, es[1..]).value);
    }
  }

  /** A state some run of the protocol reaches from the initial state. */
  ghost predicate Reachable(t: State) {
    exists st, es :: (st == Running || st == Paused) && Exec(Initial(st), es) == Some(t)
  }

  /** The run invariant holds in every reachable state. */
  lemma ReachableInv(t: State)
    requires Reachable(t)
    ensures Inv(t)
  {
    var st, es :| (st == Running || st == Paused) && Exec(Initial(st), es) == Some(t);
    RunKeepsInv(Initial(st), es);
  }

  /**
    A stop call, graceful or forced, that returned nil did so after the child's exit was published:
    `done` is closed and the child is gone.  This covers calls that joined another caller's attempt
    and calls overtaken by a force.
   */
  lemma NilStopMeansExited(t: State, i: nat)
    requires Reachable(t) && i < |t.calls| && t.calls[i] == Returned(Nil)
    ensures t.shared.done == 1 && t.shared.terminal && t.childExited
  {
    ReachableInv(t);
    assert CallInv(t, t.calls[i]);
  }

  /**
    Every reachable state: a stop in progress is what the stored state says, a force is a stop on
    purpose, and the force is reported done only after the exit was.
   */
  lemma StateFollowsStop(t: State)
    requires Reachable(t)
    ensures t.shared.stopping ==> t.shared.state == Stopping
    ensures t.shared.forceStarted ==> t.shared.stopping && t.shared.intentional
    ensures t.shared.forceDone > 0 ==> t.shared.done > 0 && t.childExited
  {
    ReachableInv(t);
  }

  /** No request, attempt, force or exit channel is ever closed twice. */
  lemma ChannelsCloseOnce(t: State)
    requires Reachable(t)
    ensures t.shared.done <= 1 && t.shared.forceDone <= t.shared.done
    ensures forall a :: 0 <= a < |t.shared.attempts| ==>
      t.shared.attempts[a].request <= 1 && t.shared.attempts[a].done <= t.shared.attempts[a].request
  {
    ReachableInv(t);
    forall a | 0 <= a < |t.shared.attempts|
      ensures t.shared.attempts[a].request <= 1 && t.shared.attempts[a].done <= t.shared.attempts[a].request
    {
      assert AttemptInv(t, a);
    }
  }

  /**
    Once a stop was accepted or forced, every later status answer of that run is "stopping", even
    for a query that asked the backend before the stop began.
   */
  lemma StatusCannotRevert(s: State, es: seq<Event>, i: nat, st: RunState)
    requires Reachable(s) && s.shared.stopping && Exec(s, es).Some?
    requires i < |Exec(s, es).value.calls| && Exec(s, es).value.calls[i] == StoreStatus(st)
    ensures Next(Exec(s, es).value, Call(i, Proceed)).Some?
    ensures Next(Exec(s, es).value, Call(i, Proceed)).value.calls[i] == StatusReturned(Stopping)
    ensures Next(Exec(s, es).value, Call(i, Proceed)).value.shared.state == Stopping
  {
    ReachableInv(s);
    RunKeepsInv(s, es);
  }

  // ---------- What is asked of the backend ----------

  /** Event `e` is the call of RequestShutdown by attempt `e.a`. */
  predicate InvokesRequest(s: State, e: Event) {
    e.Worker? && e.a < |s.workers| && s.workers[e.a] == Spawned
  }

  /** Event `e` is the call of ForceStop. */
  predicate InvokesForce(s: State, e: Event) {
    e == ForcerProceed && s.forcer.AwaitHandoff?
  }

  function ForceCalls(s: State, es: seq<Event>): (n: nat)
    decreases |es|
  {
    if es == [] then 0
    else match Next(s, es[0])
      case None => 0
      case Some(t) => (if InvokesForce(s, es[0]) then 1 else 0) + ForceCalls(t, es[1..])
  }

  /** ForceStop has been called and may not be called again. */
  predicate ForceIssued(s: State) {
    s.forcer != Idle && !s.forcer.AwaitHandoff?
  }

  /** A step never takes the force goroutine back, and issues ForceStop only by its one transition. */
  lemma ForceIssuedStep(s: State, e: Event)
    requires Inv(s) && Next(s, e).Some?
    ensures var t := Next(s, e).value;
      if InvokesForce(s, e) then !ForceIssued(s) && ForceIssued(t) else ForceIssued(t) == ForceIssued(s)
  {
  }

  /** ForceStop is invoked at most once in every run. */
  lemma {:induction false} ForceStopAtMostOnce(s: State, es: seq<Event>)
    requires Inv(s) && Exec(s, es).Some?
    ensures ForceCalls(s, es) == (if ForceIssued(Exec(s, es).value) && !ForceIssued(s) then 1 else 0)
    ensures ForceIssued(s) ==> ForceIssued(Exec(s, es).value)
    decreases |es|
  {
    if es != [] {
      StepKeepsInv(s, es[0]);
      ForceIssuedStep(s, es[0]);
      ForceStopAtMostOnce(Next(s, es[0]).value, es[1..]);
    }
  }

  /** At most one RequestShutdown is in flight, and none while ForceStop is. */
  lemma BackendCallsExclude(t: State, a: nat, b: nat)
    requires Reachable(t) && a < |t.workers| && t.workers[a] == Requesting
    ensures t.forcer != InForceStop
    ensures b < |t.workers| && t.workers[b] == Requesting ==> a == b
  {
    ReachableInv(t);
    assert AttemptInv(t, a);
    if b < |t.workers| { assert AttemptInv(t, b); }
  }

  /** After a request was accepted, no RequestShutdown is ever issued again, in any continuation. */
  lemma NoRequestAfterAccepted(s: State, es: seq<Event>, e: Event, a: nat)
    requires Reachable(s) && a < |s.workers| && a < |s.shared.attempts| && s.shared.attempts[a].accepted
    requires Exec(s, es).Some?
    ensures !InvokesRequest(Exec(s, es).value, e)
  {
    ReachableInv(s);
    RunKeepsInv(s, es);
    var t := Exec(s, es).value;
    assert AttemptExtends(s, t, a);
    assert AttemptInv(t, a);
    assert InvokesRequest(t, e) ==> AttemptInv(t, e.a);
  }

  /** After a force has started no new attempt is ever created, in any continuation. */
  lemma NoAttemptAfterForce(s: State, es: seq<Event>)
    requires Reachable(s) && s.shared.forceStarted && Exec(s, es).Some?
    ensures |Exec(s, es).value.shared.attempts| == |s.shared.attempts|
  {
    ReachableInv(s);
    RunKeepsInv(s, es);
  }

  /**
    RequestShutdown can still be called after a force has started: a graceful caller creates an
    attempt, a forced caller starts the force, and only then does the attempt's goroutine run.
   */
  lemma RequestCanFollowForce()
    ensures var es := [Arrive(EnterGraceful, true), Call(0, Proceed), Arrive(EnterForce, true), Call(1, Proceed)];
      && Exec(Initial(Running), es).Some?
      && Exec(Initial(Running), es).value.shared.forceStarted
      && InvokesRequest(Exec(Initial(Running), es).value, Worker(0, WorkerProceed))
  {
  }

  /** Some continuation of `t` calls RequestShutdown. */
  ghost predicate RequestFollows(t: State) {
    exists es, a :: Exec(t, es).Some? && InvokesRequest(Exec(t, es).value, Worker(a, WorkerProceed))
  }

  /**
    Exactly when that happens: the call that starts the force in state `s` is followed by a
    RequestShutdown, in some continuation, if and only if `s` holds an attempt whose goroutine has
    not run yet.
   */
  lemma RequestFollowsForceExactly(s: State, i: nat)
    requires Reachable(s) && i < |s.calls| && s.calls[i] == EnterForce && !s.shared.forceStarted
    ensures Next(s, Call(i, Proceed)).Some?
    ensures RequestFollows(Next(s, Call(i, Proceed)).value) <==>
      s.shared.graceful.Some? && s.shared.graceful.value < |s.workers| && s.workers[s.shared.graceful.value] == Spawned
  {
    ReachableInv(s);
    StepKeepsInv(s, Call(i, Proceed));
    var t := Next(s, Call(i, Proceed)).value;
    if s.shared.graceful.Some? && s.workers[s.shared.graceful.value] == Spawned {
      assert Exec(t, []) == Some(t);
      assert InvokesRequest(Exec(t, []).value, Worker(s.shared.graceful.value, WorkerProceed));
    }
    if RequestFollows(t) {
      var es, a :| Exec(t, es).Some? && InvokesRequest(Exec(t, es).value, Worker(a, WorkerProceed));
      RunKeepsInv(t, es);
      assert AttemptExtends(t, Exec(t, es).value, a);
      assert AttemptInv(s, a);
    }
  }

  /** Such a late request runs under a context that is already done, before ForceStop is called. */
  lemma LateRequestIsCancelled(t: State, a: nat)
    requires Reachable(t) && t.shared.forceStarted && InvokesRequest(t, Worker(a, WorkerProceed))
    ensures a < |t.shared.attempts| && t.shared.attempts[a].ctx != Live && t.forcer == AwaitHandoff(Some(a))
  {
    ReachableInv(t);
    assert AttemptInv(t, a);
  }

  /** The next step of call `i` only takes it to the program point `pc`. */
  predicate MovesTo(t: State, i: nat, pc: CallPc)
    requires i < |t.calls|
  {
    var u := Next(t, Call(i, Proceed));
    u.Some? && u.value.shared == t.shared && u.value.calls == t.calls[i := pc]
  }

  /**
    The verdict of an accepted attempt is final: `graceful` is never cleared, so after a graceful
    timeout every later graceful stop that is not overtaken reads the same error.
   */
  lemma AcceptedVerdictIsFinal(s: State, es: seq<Event>, a: nat, i: nat)
    requires Reachable(s) && a < |s.workers| && a < |s.shared.attempts|
    requires s.shared.attempts[a].accepted && s.workers[a] == WorkerFinished
    requires Exec(s, es).Some?
    ensures var t := Exec(s, es).value;
      && t.shared.graceful == Some(a)
      && a < |t.shared.attempts|
      && t.shared.attempts[a].err == s.shared.attempts[a].err
      && (i < |t.calls| && t.calls[i] == EnterGraceful && !t.shared.forceStarted ==>
            MovesTo(t, i, AwaitRequest(a)))
      && (i < |t.calls| && t.calls[i] == ReadAttempt(a) ==>
            MovesTo(t, i, Returned(t.shared.attempts[a].err)))
  {
    ReachableInv(s);
    RunKeepsInv(s, es);
    assert AttemptExtends(s, Exec(s, es).value, a);
  }
}
