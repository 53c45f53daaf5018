/** Every step of every process keeps the invariant of the lock protocol. */
module LockSteps {
  import opened Model
  import opened Wrappers
  import opened LockProtocol
  import opened LockInvariant
  import opened LockMoves
  import Lifecycle
  import C = ControlProtocol
  import S = SuperviseProtocol

  // ---------- The services of supervisors ----------

  /** The service of a supervisor satisfies its invariant, and the child is the one it supervises. */
  ghost predicate ServiceInv(p: Proc) {
    match p.live
    case None => p.role.Supervise? ==> p.pc != Launched && p.pc != Serving
    case Some(l) =>
      && p.role == Supervise(l.id) && C.Inv(l)
      && (p.pc == Launched || p.pc == Serving ==> (p.child.None? <==> l.sup.run.childExited))
  }

  ghost predicate ServicesInv(s: State) {
    forall x :: 0 <= x < |s.procs| ==> ServiceInv(s.procs[x])
  }

  /** The service of a new run satisfies the invariant, whether or not the child is still alive. */
  lemma NewServiceInv(id: Id, state: RunState, exited: bool)
    requires state == Running || state == Paused
    ensures C.Inv(NewService(id, state, exited))
  {
    S.InitialInv(state);
  }

  lemma LaunchKeepsService(s: State, p: Proc, act: Action)
    requires ServiceInv(p) && p.role.Supervise? && LaunchMove(s, p, act).Some?
    ensures ServiceInv(LaunchMove(s, p, act).value)
  {
    if act.Launch? { NewServiceInv(ProcId(p), act.state, p.child.None?); }
  }

  /** The child is gone exactly when the run has seen it exit. */
  lemma RunKeepsService(p: Proc, e: C.Event)
    requires ServiceInv(p) && p.live.Some? && RunMove(p, e).Some? && (p.pc == Launched || p.pc == Serving)
    ensures ServiceInv(RunMove(p, e).value)
  {
    C.StepKeepsInv(p.live.value, e);
    C.StepExtends(p.live.value, e);
  }

  lemma ServeKeepsService(s: State, x: Pid, act: Action)
    requires x < |s.procs| && ServiceInv(s.procs[x]) && (s.procs[x].pc == Launched || s.procs[x].pc == Serving)
    requires s.procs[x].live.Some? && ServeStep(s, x, act).Some?
    ensures |ServeStep(s, x, act).value.procs| == |s.procs| && ServiceInv(ServeStep(s, x, act).value.procs[x])
  {
    if act.Run? { RunKeepsService(s.procs[x], act.e); }
  }

  /** What the supervisor's own step makes of itself. */
  lemma SuperviseKeepsService(s: State, x: Pid, act: Action)
    requires x < |s.procs| && ServiceInv(s.procs[x]) && s.procs[x].role.Supervise? && SuperviseStep(s, x, act).Some?
    ensures |SuperviseStep(s, x, act).value.procs| == |s.procs| && ServiceInv(SuperviseStep(s, x, act).value.procs[x])
  {
    var p := s.procs[x];
    if p.pc != Launched && p.pc != Serving {
      LaunchKeepsService(s, p, act);
    } else {
      ServeKeepsService(s, x, act);
    }
  }

  lemma MoverKeepsService(s: State, x: Pid, act: Action)
    requires x < |s.procs| && ServiceInv(s.procs[x]) && Next(s, Step(x, act)).Some?
    ensures OnlyMoves(s, Next(s, Step(x, act)).value, x) && ServiceInv(Next(s, Step(x, act)).value.procs[x])
  {
    StepMoves(s, x, act);
    if InSupervise(s.procs[x]) { SuperviseKeepsService(s, x, act); }
  }

  /** Every step keeps the services of all supervisors. */
  lemma StepKeepsServices(s: State, e: Event)
    requires ServicesInv(s) && Next(s, e).Some?
    ensures ServicesInv(Next(s, e).value)
  {
    var t := Next(s, e).value;
    forall y | 0 <= y < |t.procs| ensures ServiceInv(t.procs[y]) {
      if e.Step? {
        assert ServiceInv(s.procs[e.pid]);
        MoverKeepsService(s, e.pid, e.action);
      }
      if y < |s.procs| { assert ServiceInv(s.procs[y]); }
    }
  }

  /** When the service is done but for the release of the lock, the run has seen its child exit. */
  lemma ReleasingMeansReaped(p: Proc)
    requires ServiceInv(p) && p.live.Some? && p.live.value.sup.pc == S.Releasing
    requires p.pc == Launched || p.pc == Serving
    ensures p.child.None?
  {
  }

  // ---------- The locks ----------

  /** A process that holds no lock may end. */
  lemma EndKeepsInv(s: State, x: Pid)
    requires Inv(s) && x < |s.procs| && !s.procs[x].role.Observe? && !s.procs[x].named
    requires s.procs[x].pc == Start || s.procs[x].pc == Unlocked
    ensures Inv(Put(s, x, s.procs[x].(pc := End)))
  {
    assert ProcInv(s, x);
    PutKeepsInv(s, x, s.procs[x].(pc := End));
  }

  lemma ReleaseNameKeepsInv(s: State, x: Pid)
    requires Inv(s) && x < |s.procs| && !s.procs[x].role.Observe? && s.procs[x].named && s.procs[x].pc == Unlocked
    ensures Inv(DropName(s, x, End))
  {
    assert ProcInv(s, x);
    DropNameKeepsInv(s, x, End);
  }

  lemma CommonKeepsInv(s: State, x: Pid, act: Action)
    requires Inv(s) && x < |s.procs| && !s.procs[x].role.Observe? && CommonStep(s, x, act).Some?
    ensures Inv(CommonStep(s, x, act).value)
  {
    var p := s.procs[x];
    assert !p.named || p.pc != Start by { assert ProcInv(s, x); }
    assert p.pc == Closing ==> p.locked by { assert ProcInv(s, x); }
    if p.pc == Start && act == Advance {
      LockNameKeepsInv(s, x);
    } else if p.pc == Start {
      EndKeepsInv(s, x);
    } else if p.pc == Closing {
      DropLifetimeKeepsInv(s, x, Unlocked);
    } else if p.named {
      ReleaseNameKeepsInv(s, x);
    } else {
      EndKeepsInv(s, x);
    }
  }

  lemma LoadKeepsInv(s: State, x: Pid)
    requires Inv(s) && x < |s.procs| && s.procs[x].pc == Named
    requires s.procs[x].role.Supervise? || s.procs[x].role.Delete?
    ensures Inv(AcquireStep(s, x, Advance).value)
  {
    var p, t := s.procs[x], AcquireStep(s, x, Advance).value;
    assert ProcInv(s, x);
    RollingOf(s, x);
    assert ConfigInv(s, p.name);
    assert forall n :: Rolling(t, n) == Rolling(s, n);
    PutKeepsInv(s, x, t.procs[x]);
  }

  lemma AcquireKeepsInv(s: State, x: Pid, act: Action)
    requires Inv(s) && x < |s.procs| && (s.procs[x].role.Supervise? || s.procs[x].role.Delete?)
    requires s.procs[x].pc == Named || s.procs[x].pc == Loaded || s.procs[x].pc == Opened
    requires AcquireStep(s, x, act).Some?
    ensures Inv(AcquireStep(s, x, act).value)
  {
    var p, k := s.procs[x], ProcKey(s.procs[x]);
    assert ProcInv(s, x);
    if act == Fail {
      PutKeepsInv(s, x, p.(pc := Unlocked, fd := None));
    } else if p.pc == Named {
      LoadKeepsInv(s, x);
    } else if p.pc == Loaded {
      MkdirAllKeepsInv(s, k);
      OpenLockKeepsInv(s.(runtimeDirs := s.runtimeDirs + {k}), x);
    } else {
      TryFlockKeepsInv(s, x, Unlocked);
    }
  }

  lemma LaunchSelf(s: State, x: Pid, act: Action)
    requires Inv(s) && x < |s.procs| && s.procs[x].role.Supervise? && LaunchMove(s, s.procs[x], act).Some?
    ensures ProcInv(Put(s, x, LaunchMove(s, s.procs[x], act).value), x)
  {
    var pc, t := s.procs[x].pc, Put(s, x, LaunchMove(s, s.procs[x], act).value);
    assert ProcInv(s, x);
    assert Rolling(s, s.procs[x].name) == Rolling(t, s.procs[x].name);
    if pc == Owned {
    } else if pc == Reloaded {
    } else if pc == Launching {
    } else {
    }
  }

  /** From the owned lifetime lock to the run: the moves keep what the locks protect. */
  lemma LaunchKeepsInv(s: State, x: Pid, act: Action)
    requires Inv(s) && x < |s.procs| && s.procs[x].role.Supervise? && LaunchMove(s, s.procs[x], act).Some?
    ensures Inv(Put(s, x, LaunchMove(s, s.procs[x], act).value))
  {
    var p, q := s.procs[x], LaunchMove(s, s.procs[x], act).value;
    LaunchMoves(s, p, act, q);
    LaunchSelf(s, x, act);
    PutKeepsInv(s, x, q);
  }

  lemma RunSelf(s: State, x: Pid, e: C.Event)
    requires Inv(s) && x < |s.procs| && s.procs[x].role.Supervise? && s.procs[x].live.Some?
    requires RunMove(s.procs[x], e).Some?
    ensures ProcInv(Put(s, x, RunMove(s.procs[x], e).value), x)
  {
    var t := Put(s, x, RunMove(s.procs[x], e).value);
    assert ProcInv(s, x);
    assert Rolling(s, s.procs[x].name) == Rolling(t, s.procs[x].name);
  }

  lemma RunKeepsInv(s: State, x: Pid, e: C.Event)
    requires Inv(s) && x < |s.procs| && s.procs[x].role.Supervise? && s.procs[x].live.Some?
    requires s.procs[x].pc == Launched || s.procs[x].pc == Serving
    requires RunMove(s.procs[x], e).Some?
    ensures Inv(Put(s, x, RunMove(s.procs[x], e).value))
  {
    assert ProcInv(s, x);
    RunSelf(s, x, e);
    PutKeepsInv(s, x, RunMove(s.procs[x], e).value);
  }

  /** Every return of Supervise with a run leaves no child behind. */
  lemma ReturnKeepsInv(s: State, x: Pid)
    requires Inv(s) && x < |s.procs| && s.procs[x].role.Supervise? && ServiceInv(s.procs[x]) && s.procs[x].live.Some?
    requires s.procs[x].live.value.sup.pc == S.Releasing && (s.procs[x].pc == Launched || s.procs[x].pc == Serving)
    ensures Inv(Put(s, x, s.procs[x].(pc := Closing)))
  {
    var p := s.procs[x];
    assert ProcInv(s, x);
    ReleasingMeansReaped(p);
    assert Rolling(s, p.name) == Rolling(Put(s, x, p.(pc := Closing)), p.name);
    PutKeepsInv(s, x, p.(pc := Closing));
  }

  lemma ServingKeepsInv(s: State, x: Pid)
    requires Inv(s) && x < |s.procs| && s.procs[x].role.Supervise? && s.procs[x].pc == Launched
    ensures Inv(DropName(s, x, Serving))
  {
    var t := DropName(s, x, Serving);
    assert ProcInv(s, x);
    RollingOf(s, x);
    DropNameKeepsInv(s, x, Serving);
  }

  lemma SuperviseKeepsInv(s: State, x: Pid, act: Action)
    requires Inv(s) && x < |s.procs| && s.procs[x].role.Supervise? && ServiceInv(s.procs[x])
    requires SuperviseStep(s, x, act).Some?
    ensures Inv(SuperviseStep(s, x, act).value)
  {
    var p := s.procs[x];
    if p.pc != Launched && p.pc != Serving {
      LaunchKeepsInv(s, x, act);
    } else if act.Run? {
      RunKeepsInv(s, x, act.e);
    } else if p.live.value.sup.pc == S.Releasing {
      ReturnKeepsInv(s, x);
    } else {
      ServingKeepsInv(s, x);
    }
  }

  lemma DeleteKeepsInv(s: State, x: Pid, act: Action)
    requires Inv(s) && x < |s.procs| && s.procs[x].role.Delete? && DeleteStep(s, x, act).Some?
    ensures Inv(DeleteStep(s, x, act).value)
  {
    var p, t := s.procs[x], DeleteStep(s, x, act).value;
    assert ProcInv(s, x);
    if p.pc == Inspected && act != Fail {
      DeleteConfigKeepsInv(s, x, t.procs[x].pc);
    } else if p.pc == VmRemoved && act == Unlink {
      UnlinkKeepsInv(s, x);
    } else if p.pc == VmRemoved && act == Advance {
      RemoveDirKeepsInv(s, x, Closing);
    } else {
      PutKeepsInv(s, x, t.procs[x]);
    }
  }

  lemma EditKeepsInv(s: State, x: Pid, act: Action)
    requires Inv(s) && x < |s.procs| && s.procs[x].role.Edit? && EditStep(s, x, act).Some?
    ensures Inv(EditStep(s, x, act).value)
  {
    var t := EditStep(s, x, act).value;
    assert ProcInv(s, x);
    if s.procs[x].pc == Loaded && act.SaveConfig? {
      if act.written { SaveKeepsInv(s, x, act.saved); }
    } else {
      PutKeepsInv(s, x, t.procs[x]);
    }
  }

  /** The steps of a creation that change nothing shared. */
  lemma CreateMoveKeepsInv(s: State, x: Pid, pc: Pc)
    requires Inv(s) && x < |s.procs| && s.procs[x].role.Create?
    requires ((s.procs[x].pc == Named || s.procs[x].pc == Checked) && pc == Unlocked)
          || (s.procs[x].pc == Named && pc == Checked && s.procs[x].name !in s.configs)
          || (s.procs[x].pc == RollingBack && pc == RolledDir)
    ensures Inv(Put(s, x, s.procs[x].(pc := pc)))
  {
    assert ProcInv(s, x);
    PutKeepsInv(s, x, s.procs[x].(pc := pc));
  }

  lemma CreateOtherKeepsInv(s: State, x: Pid, act: Action)
    requires Inv(s) && x < |s.procs| && s.procs[x].role.Create? && CreateStep(s, x, act).Some?
    requires s.procs[x].pc == Named
          || (s.procs[x].pc == Checked && (act == Fail || ProcKey(s.procs[x]) in s.runtimeDirs))
          || (s.procs[x].pc == RollingBack && act == Fail)
    ensures Inv(CreateStep(s, x, act).value)
  {
    CreateMoveKeepsInv(s, x, CreateStep(s, x, act).value.procs[x].pc);
  }

  lemma CreateKeepsInv(s: State, x: Pid, act: Action)
    requires Inv(s) && x < |s.procs| && s.procs[x].role.Create? && CreateStep(s, x, act).Some?
    ensures Inv(CreateStep(s, x, act).value)
  {
    var p, t := s.procs[x], CreateStep(s, x, act).value;
    if p.pc == Checked && act == Advance && ProcKey(p) !in s.runtimeDirs {
      MadeKeepsInv(s, x);
    } else if p.pc == Made {
      WriteKeepsInv(s, x, t.procs[x].pc, act != Fail);
    } else if p.pc == RollingBack && act == Unlink {
      UnlinkKeepsInv(s, x);
    } else if p.pc == RollingBack && act == Advance {
      RemoveDirKeepsInv(s, x, RolledDir);
    } else if p.pc == RolledDir {
      UndoKeepsInv(s, x);
    } else {
      CreateOtherKeepsInv(s, x, act);
    }
  }

  /** A client's step that touches nothing shared. */
  lemma ClientKeepsInv(s: State, x: Pid, q: Proc)
    requires Inv(s) && x < |s.procs| && s.procs[x].role.Observe? && s.procs[x].pc != Owned
    requires q.(pc := s.procs[x].pc, fd := s.procs[x].fd) == s.procs[x] && (q.fd.Some? ==> q.fd == s.procs[x].fd)
    requires q.pc.Connected? || q.pc == Probing || q.pc == DirReady || q.pc.Answered?
    ensures Inv(Put(s, x, q))
  {
    assert ProcInv(s, x);
    PutKeepsInv(s, x, q);
  }

  lemma ProbeKeepsInv(s: State, x: Pid)
    requires Inv(s) && x < |s.procs| && s.procs[x].role.Observe? && ObserveStep(s, x, Advance).Some?
    ensures Inv(ObserveStep(s, x, Advance).value)
  {
    var p, k := s.procs[x], ProcKey(s.procs[x]);
    if p.pc == Probing {
      MkdirAllKeepsInv(s, k);
      ClientKeepsInv(s.(runtimeDirs := s.runtimeDirs + {k}), x, p.(pc := DirReady));
    } else if k in s.runtimeDirs {
      OpenLockKeepsInv(s, x);
    } else {
      ClientKeepsInv(s, x, p.(pc := Answered(Lifecycle.Error)));
    }
  }

  lemma ConcludeKeepsInv(s: State, x: Pid, act: Action)
    requires Inv(s) && x < |s.procs| && s.procs[x].role.Observe? && act.Conclude? && ObserveStep(s, x, act).Some?
    ensures Inv(ObserveStep(s, x, act).value)
  {
    var p := s.procs[x];
    assert p.pc == Owned ==> p.locked by { assert ProcInv(s, x); }
    if p.pc == Opened {
      TryFlockKeepsInv(s, x, Answered(Lifecycle.AfterBusy(p.role.call, act.starting)));
    } else {
      DropLifetimeKeepsInv(s, x, Answered(Lifecycle.AfterLock(p.role.call, act.last)));
    }
  }

  lemma ObserveKeepsInv(s: State, x: Pid, act: Action)
    requires Inv(s) && x < |s.procs| && s.procs[x].role.Observe? && ObserveStep(s, x, act).Some?
    ensures Inv(ObserveStep(s, x, act).value)
  {
    var p := s.procs[x];
    if act == Advance {
      ProbeKeepsInv(s, x);
    } else if act.Conclude? {
      ConcludeKeepsInv(s, x, act);
    } else if p.pc == Owned {
      assert p.locked by { assert ProcInv(s, x); }
      DropLifetimeKeepsInv(s, x, Answered(Lifecycle.Error));
    } else {
      var q := ObserveMove(s, p, act).value;
      ObserveMoveMoves(s, p, act, q);
      ClientKeepsInv(s, x, q);
    }
  }

  lemma SpawnKeepsProc(s: State, role: Role, name: Name, y: Pid)
    requires Inv(s) && y < |s.procs|
    ensures ProcInv(Next(s, Spawn(role, name)).value, y)
  {
    var t := Next(s, Spawn(role, name)).value;
    assert ProcInv(s, y);
    assert Rolling(t, s.procs[y].name) == Rolling(s, s.procs[y].name);
    UndisturbedKeeps(s, t, y);
  }

  lemma SpawnKeepsInv(s: State, role: Role, name: Name)
    requires Inv(s)
    ensures Inv(Next(s, Spawn(role, name)).value)
  {
    var t := Next(s, Spawn(role, name)).value;
    assert forall n :: Rolling(t, n) == Rolling(s, n);
    forall y | 0 <= y < |t.procs| ensures ProcInv(t, y) {
      if y < |s.procs| { SpawnKeepsProc(s, role, name, y); }
    }
    forall n ensures ConfigInv(t, n) { assert ConfigInv(s, n); }
  }

  lemma ProcessKeepsInv(s: State, x: Pid, act: Action)
    requires Inv(s) && x < |s.procs| && ServiceInv(s.procs[x]) && Next(s, Step(x, act)).Some?
    ensures Inv(Next(s, Step(x, act)).value)
  {
    var p := s.procs[x];
    if p.role.Observe? {
      ObserveKeepsInv(s, x, act);
    } else if p.pc == Start || p.pc.Closing? || p.pc.Unlocked? {
      CommonKeepsInv(s, x, act);
    } else if p.role.Edit? {
      EditKeepsInv(s, x, act);
    } else if p.role.Create? {
      CreateKeepsInv(s, x, act);
    } else if p.pc == Named || p.pc == Loaded || p.pc == Opened {
      AcquireKeepsInv(s, x, act);
    } else if p.role.Supervise? {
      SuperviseKeepsInv(s, x, act);
    } else {
      DeleteKeepsInv(s, x, act);
    }
  }

  /** The invariant is kept by every step of every process. */
  lemma StepKeepsInv(s: State, e: Event)
    requires Inv(s) && ServicesInv(s) && Next(s, e).Some?
    ensures Inv(Next(s, e).value) && ServicesInv(Next(s, e).value)
  {
    StepKeepsServices(s, e);
    match e {
      case Spawn(role, name) => SpawnKeepsInv(s, role, name);
      case Step(x, act) => assert ServiceInv(s.procs[x]); ProcessKeepsInv(s, x, act);
    }
  }
}
