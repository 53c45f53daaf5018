/**
  What the calls of the stop protocol report: the milestones of internal/supervisor/run.go, in every
  interleaving, and what a call that cannot be cancelled may conclude from its return.
 */
module StopReports {
  import opened Model
  import opened Wrappers
  import opened StopProtocol
  import opened StopSafety

  /** The four sequences of milestones there are. */
  predicate Milestones(heard: seq<Stage>) {
    heard == [] || heard == [Acknowledged] || heard == [Forcing] || heard == [Acknowledged, Forcing]
  }

  /** What a graceful stop has reported at each of its program points. */
  predicate GracefulReports(pc: CallPc, heard: seq<Stage>) {
    if pc.EnterGraceful? || pc.AwaitRequest? || pc.ReadAccepted? then heard == []
    else if pc.AwaitAttempt? || pc.ReadAttempt? then heard == [] || heard == [Acknowledged]
    else if pc.AwaitForceDone? || pc.ReadForceErr? then heard == [Forcing] || heard == [Acknowledged, Forcing]
    else pc.Returned? && Milestones(heard)
  }

  /** The program points of a call and what it has reported there, by the point it entered at. */
  predicate Reports(entry: CallPc, pc: CallPc, heard: seq<Stage>) {
    if entry == EnterGraceful then GracefulReports(pc, heard)
    else if entry == EnterForce then
      if pc == EnterForce then heard == []
      else (pc.AwaitForceDone? || pc.ReadForceErr? || pc.Returned?) && heard == [Forcing]
    else if entry == EnterCompleted then
      (pc.EnterCompleted? || pc.AwaitCompleted? || pc.ReadCompleted? || pc.CompletedReturned?) && heard == []
    else
      && entry == EnterStatus && heard == []
      && (pc.EnterStatus? || pc.QueryBackend? || pc.StoreStatus? || pc.StatusReturned? || pc.StatusFailed?)
  }

  predicate InfoInv(s: State, i: nat)
    requires i < |s.calls| && i < |s.infos|
  {
    var pc, info := s.calls[i], s.infos[i];
    && Reports(info.entry, pc, info.heard)
    && (Acknowledged in info.heard ==> s.shared.stopping)
    && (pc.Returned? && info.background && Forcing in info.heard ==> s.shared.forceDone == 1)
  }

  ghost predicate InfosInv(s: State) {
    |s.infos| == |s.calls| && forall i :: 0 <= i < |s.calls| ==> InfoInv(s, i)
  }

  /** The step of a stop call reports what its program point says. */
  lemma StopReportsOn(s: State, i: nat, b: CallBranch)
    requires Inv(s) && InfosInv(s) && i < |s.calls| && !IsQuery(s.calls[i]) && ReportedNext(s, i, b).Some?
    ensures InfoInv(ReportedNext(s, i, b).value, i)
  {
    assert InfoInv(s, i) && CallInv(s, s.calls[i]);
    var pc := s.calls[i];
    if pc.EnterGraceful? {
    } else if pc.AwaitRequest? {
    } else if pc.ReadAccepted? {
      assert AttemptInv(s, pc.a);
    } else if pc.AwaitAttempt? {
    } else if pc.EnterForce? {
    } else if pc.AwaitForceDone? {
    } else {
    }
  }

  lemma QueryReportsNothing(s: State, i: nat, b: CallBranch)
    requires Inv(s) && InfosInv(s) && i < |s.calls| && IsQuery(s.calls[i]) && ReportedNext(s, i, b).Some?
    ensures InfoInv(ReportedNext(s, i, b).value, i)
  {
    assert InfoInv(s, i);
    var pc := s.calls[i];
    if pc.EnterCompleted? || pc.AwaitCompleted? || pc.ReadCompleted? {
    } else if pc.EnterStatus? || pc.QueryBackend? {
    } else {
    }
  }

  /** The calls that do not move keep their reports. */
  lemma OthersKeepReports(s: State, e: Event, t: State, k: nat)
    requires Inv(s) && InfosInv(s) && Next(s, e) == Some(t) && k < |s.calls|
    requires e.Call? ==> k != e.i
    ensures k < |t.calls| && k < |t.infos| && t.calls[k] == s.calls[k] && t.infos[k] == s.infos[k]
  {
    if e.Call? {
      CallTouchesOne(s, e.i, e.branch, k);
    } else if e.Worker? {
      WorkerTouchesNoCall(s, e.a, e.choice);
    }
  }

  lemma CallTouchesOne(s: State, i: nat, b: CallBranch, k: nat)
    requires i < |s.calls| == |s.infos| && ReportedNext(s, i, b).Some? && k < |s.calls| && k != i
    ensures var t := ReportedNext(s, i, b).value;
      |t.calls| == |s.calls| && |t.infos| == |s.infos| && t.calls[k] == s.calls[k] && t.infos[k] == s.infos[k]
  {
  }

  lemma WorkerTouchesNoCall(s: State, a: nat, b: WorkerBranch)
    requires a < |s.workers| && a < |s.shared.attempts| && WorkerNext(s, a, b).Some?
    ensures WorkerNext(s, a, b).value.calls == s.calls && WorkerNext(s, a, b).value.infos == s.infos
  {
  }

  /** Every step keeps, for every call, that its reports fit its program point. */
  lemma StepKeepsReports(s: State, e: Event)
    requires Inv(s) && InfosInv(s) && Next(s, e).Some?
    ensures InfosInv(Next(s, e).value)
  {
    var t := Next(s, e).value;
    StepKeepsInv(s, e);
    forall k | 0 <= k < |t.calls| ensures InfoInv(t, k) {
      if e.Call? && k == e.i {
        if IsQuery(s.calls[k]) { QueryReportsNothing(s, k, e.branch); } else { StopReportsOn(s, k, e.branch); }
      } else if k < |s.calls| {
        OthersKeepReports(s, e, t, k);
        assert InfoInv(s, k);
      }
    }
  }

  lemma {:induction false} RunKeepsReports(s: State, es: seq<Event>)
    requires Inv(s) && InfosInv(s) && Exec(s, es).Some?
    ensures InfosInv(Exec(s, es).value)
    decreases |es|
  {
    if es != [] {
      StepKeepsInv(s, es[0]);
      StepKeepsReports(s, es[0]);
      RunKeepsReports(Next(s, es[0]).value, es[1..]);
    }
  }

  lemma ReachableReports(t: State)
    requires Reachable(t)
    ensures Inv(t) && InfosInv(t)
  {
    ReachableInv(t);
    var st, es :| (st == Running || st == Paused) && Exec(Initial(st), es) == Some(t);
    RunKeepsReports(Initial(st), es);
  }

  /**
    In every run each stop call reports acknowledged at most once and forcing at most once, in that
    order; a forced call reports forcing first and nothing else; and a request is acknowledged only
    once the run is stopping.
   */
  lemma MilestonesOfCall(t: State, i: nat)
    requires Reachable(t) && i < |t.calls|
    ensures i < |t.infos| && Milestones(t.infos[i].heard)
    ensures t.infos[i].entry == EnterForce && t.calls[i] != EnterForce ==> t.infos[i].heard == [Forcing]
    ensures t.infos[i].entry != EnterForce && t.infos[i].entry != EnterGraceful ==> t.infos[i].heard == []
    ensures Acknowledged in t.infos[i].heard ==> t.shared.stopping
  {
    ReachableReports(t);
    assert InfoInv(t, i);
  }

  /**
    A call that cannot be cancelled and has reported forcing returns only after the child's exit was
    published, whatever error it returns.
   */
  lemma ForcedReturnMeansExited(t: State, i: nat)
    requires Reachable(t) && i < |t.calls| && i < |t.infos| && t.calls[i].Returned?
    requires t.infos[i].background && Forcing in t.infos[i].heard
    ensures t.shared.done == 1 && t.shared.forceDone == 1 && t.childExited
  {
    ReachableReports(t);
    assert InfoInv(t, i);
  }
}
