/** What one step of the lock protocol can change: only the process that takes it, and how. */
module LockMoves {
  import opened Wrappers
  import opened LockProtocol
  import Lifecycle
  import S = SuperviseProtocol

  /** Only process `x` changes. */
  ghost predicate OnlyMoves(s: State, t: State, x: Pid)
    requires x < |s.procs|
  {
    |t.procs| == |s.procs| && t.procs == s.procs[x := t.procs[x]]
  }

  /** Only process `x` changes, and neither its role nor a child or a run of it. */
  ghost predicate Aside(s: State, t: State, x: Pid)
    requires x < |s.procs|
  {
    && OnlyMoves(s, t, x) && t.procs[x].role == s.procs[x].role && t.procs[x].child == s.procs[x].child
    && t.procs[x].live == s.procs[x].live && t.procs[x].pc != Launched && t.procs[x].pc != Serving
  }

  // ---------- The shared pieces ----------

  lemma PutMoves(s: State, x: Pid, p: Proc)
    requires x < |s.procs|
    ensures OnlyMoves(s, Put(s, x, p), x) && Put(s, x, p).procs[x] == p
  {
  }

  lemma TryFlockMoves(s: State, x: Pid, busy: Pc)
    requires x < |s.procs| && busy != Launched && busy != Serving
    ensures Aside(s, TryFlock(s, x, busy), x) && (s.procs[x].locked ==> TryFlock(s, x, busy).procs[x].locked)
    ensures var pc := TryFlock(s, x, busy).procs[x].pc; pc == Owned || pc == busy
  {
    var p := s.procs[x];
    if p.fd.Some? && p.fd.value !in s.flocks {
      PutMoves(s, x, p.(pc := Owned, locked := true));
    } else {
      PutMoves(s, x, p.(pc := busy, fd := None));
    }
  }

  lemma DropLifetimeMoves(s: State, x: Pid, pc: Pc)
    requires x < |s.procs| && pc != Launched && pc != Serving
    ensures Aside(s, DropLifetime(s, x, pc), x) && DropLifetime(s, x, pc).procs[x].pc == pc
  {
  }

  lemma OpenLockMoves(s: State, x: Pid)
    requires x < |s.procs|
    ensures Aside(s, OpenLock(s, x), x) && OpenLock(s, x).procs[x].locked == s.procs[x].locked
    ensures OpenLock(s, x).procs[x].pc == Opened
  {
  }

  lemma CommonMoves(s: State, x: Pid, act: Action, t: State)
    requires x < |s.procs| && CommonStep(s, x, act) == Some(t)
    ensures Aside(s, t, x)
  {
    var pc := s.procs[x].pc;
    if pc == Start {
    } else if pc == Closing {
      DropLifetimeMoves(s, x, Unlocked);
    } else {
    }
  }

  lemma AcquireMoves(s: State, x: Pid, act: Action, t: State)
    requires x < |s.procs| && AcquireStep(s, x, act) == Some(t)
    ensures Aside(s, t, x) && (s.procs[x].locked ==> t.procs[x].locked)
  {
    var p := s.procs[x];
    if act != Fail && p.pc == Loaded {
      OpenLockMoves(s.(runtimeDirs := s.runtimeDirs + {ProcKey(p)}), x);
    } else if act != Fail && p.pc == Opened {
      TryFlockMoves(s, x, Unlocked);
    } else if act != Fail && t != Put(s, x, p.(pc := Unlocked)) {
      PutMoves(s, x, p.(pc := Loaded, config := Some(s.configs[p.name])));
    } else {
      PutMoves(s, x, t.procs[x]);
    }
  }

  lemma DeleteMoves(s: State, x: Pid, act: Action, t: State)
    requires x < |s.procs| && DeleteStep(s, x, act) == Some(t)
    ensures Aside(s, t, x)
  {
    var pc := s.procs[x].pc;
    if pc == Owned {
    } else if pc == Inspected {
    } else if act == Unlink {
    } else {
    }
  }

  lemma EditMoves(s: State, x: Pid, act: Action, t: State)
    requires x < |s.procs| && EditStep(s, x, act) == Some(t)
    ensures Aside(s, t, x)
  {
    var p := s.procs[x];
    if p.pc == Named && act == Advance && p.name in s.configs {
      PutMoves(s, x, p.(pc := Loaded, config := Some(s.configs[p.name])));
    } else if act.SaveConfig? {
      assert t.procs == s.procs;
    } else {
      PutMoves(s, x, p.(pc := Unlocked));
    }
  }

  /** Up to the first write of a creation. */
  lemma MakeMoves(s: State, x: Pid, act: Action, t: State)
    requires x < |s.procs| && s.procs[x].role.Create? && CreateStep(s, x, act) == Some(t)
    requires s.procs[x].pc == Named || s.procs[x].pc == Checked
    ensures Aside(s, t, x)
  {
    var p := s.procs[x];
    if act != Advance || (if p.pc == Named then p.name in s.configs else ProcKey(p) in s.runtimeDirs) {
      PutMoves(s, x, p.(pc := Unlocked));
    } else if p.pc == Named {
      PutMoves(s, x, p.(pc := Checked));
    } else {
      PutMoves(s, x, p.(pc := Made));
    }
  }

  lemma RollBackMoves(s: State, x: Pid, act: Action, t: State)
    requires x < |s.procs| && s.procs[x].role.Create? && CreateStep(s, x, act) == Some(t)
    requires s.procs[x].pc == RollingBack || s.procs[x].pc == RolledDir
    ensures Aside(s, t, x)
  {
    if act == Unlink {
      assert t.procs == s.procs;
    } else if s.procs[x].pc == RollingBack {
      PutMoves(s, x, s.procs[x].(pc := RolledDir));
    } else {
      PutMoves(s, x, s.procs[x].(pc := Unlocked));
    }
  }

  lemma CreateMoves(s: State, x: Pid, act: Action, t: State)
    requires x < |s.procs| && s.procs[x].role.Create? && CreateStep(s, x, act) == Some(t)
    ensures Aside(s, t, x)
  {
    var p := s.procs[x];
    if p.pc == Named || p.pc == Checked {
      MakeMoves(s, x, act, t);
    } else if p.pc != Made {
      RollBackMoves(s, x, act, t);
    } else if act == Advance {
      PutMoves(s, x, p.(pc := Unlocked));
    } else {
      PutMoves(s, x, p.(pc := RollingBack));
    }
  }

  // ---------- Clients ----------

  lemma DecidedMoves(p: Proc, control: Lifecycle.Control)
    requires p.role.Observe?
    ensures var q := Decided(p, control);
      q.(pc := p.pc) == p && (q.pc == Probing || q.pc.Answered?)
  {
  }

  lemma ObserveMoveMoves(s: State, p: Proc, act: Action, q: Proc)
    requires p.role.Observe? && ObserveMove(s, p, act) == Some(q)
    ensures q.(pc := p.pc, fd := p.fd) == p && (q.fd.Some? ==> q.fd == p.fd)
    ensures q.pc.Connected? || q.pc == Probing || q.pc.Answered?
  {
    if act == Fail {
    } else if act.Exchange? {
      DecidedMoves(p, act.control);
    } else if act.Receive? && p.pc.Connected? {
      DecidedMoves(p, Received(s, p.pc.peer, p.pc.conn, act.frames, act.cmd, p.role.observed));
    } else {
    }
  }

  lemma ConcludeMoves(s: State, x: Pid, act: Action, t: State)
    requires x < |s.procs| && s.procs[x].role.Observe? && act.Conclude? && ObserveStep(s, x, act) == Some(t)
    ensures Aside(s, t, x) && (t.procs[x].pc == Owned || t.procs[x].pc.Answered?)
  {
    var call := s.procs[x].role.call;
    if s.procs[x].pc == Opened {
      TryFlockMoves(s, x, Answered(Lifecycle.AfterBusy(call, act.starting)));
    } else {
      DropLifetimeMoves(s, x, Answered(Lifecycle.AfterLock(call, act.last)));
    }
  }

  lemma ProbeMoves(s: State, x: Pid, act: Action, t: State)
    requires x < |s.procs| && s.procs[x].role.Observe? && act == Advance && ObserveStep(s, x, act) == Some(t)
    ensures Aside(s, t, x)
    ensures if s.procs[x].pc == DirReady then t.procs[x].pc == Opened || t.procs[x].pc.Answered?
            else t.procs[x].pc == DirReady
  {
    var p := s.procs[x];
    if p.pc == Probing {
      PutMoves(s, x, p.(pc := DirReady));
    } else if ProcKey(p) in s.runtimeDirs {
      OpenLockMoves(s, x);
    } else {
      PutMoves(s, x, p.(pc := Answered(Lifecycle.Error)));
    }
  }

  lemma ObserveMoves(s: State, x: Pid, act: Action, t: State)
    requires x < |s.procs| && s.procs[x].role.Observe? && ObserveStep(s, x, act) == Some(t)
    ensures Aside(s, t, x)
  {
    var p := s.procs[x];
    if act.Conclude? {
      ConcludeMoves(s, x, act, t);
    } else if act == Advance {
      ProbeMoves(s, x, act, t);
    } else if p.pc == Owned {
      DropLifetimeMoves(s, x, Answered(Lifecycle.Error));
    } else {
      ObserveMoveMoves(s, p, act, ObserveMove(s, p, act).value);
      PutMoves(s, x, ObserveMove(s, p, act).value);
    }
  }

  // ---------- Supervisors ----------

  /** Supervise between the acquisition of its lifetime lock and its release. */
  predicate InSupervise(p: Proc) {
    && p.role.Supervise? && p.pc != Start && !p.pc.Closing? && !p.pc.Unlocked?
    && p.pc != Named && p.pc != Loaded && p.pc != Opened
  }

  /** How a supervisor's own step changes itself: a child starts only from the config read last. */
  ghost predicate Supervised(p: Proc, q: Proc) {
    && q.role == p.role && q.name == p.name && q.locked == p.locked && q.fd == p.fd
    && (q.child.Some? ==> q.child == p.child || (p.pc == Reloaded && q.child == p.config))
  }

  lemma LaunchMoves(s: State, p: Proc, act: Action, q: Proc)
    requires LaunchMove(s, p, act) == Some(q)
    ensures Supervised(p, q) && q.named == p.named
  {
  }

  lemma ServeMoves(s: State, x: Pid, act: Action, t: State)
    requires x < |s.procs| && s.procs[x].live.Some? && ServeStep(s, x, act) == Some(t)
    ensures OnlyMoves(s, t, x) && Supervised(s.procs[x], t.procs[x])
  {
    var p := s.procs[x];
    if act.Run? {
      PutMoves(s, x, RunMove(p, act.e).value);
    } else if p.live.value.sup.pc == S.Releasing {
      PutMoves(s, x, p.(pc := Closing));
    } else {
      PutMoves(s, x, p.(pc := Serving, named := false));
    }
  }

  lemma SuperviseMoves(s: State, x: Pid, act: Action, t: State)
    requires x < |s.procs| && SuperviseStep(s, x, act) == Some(t)
    ensures OnlyMoves(s, t, x) && Supervised(s.procs[x], t.procs[x])
  {
    var p := s.procs[x];
    if p.pc != Launched && p.pc != Serving {
      LaunchMoves(s, p, act, LaunchMove(s, p, act).value);
      PutMoves(s, x, LaunchMove(s, p, act).value);
    } else {
      ServeMoves(s, x, act, t);
    }
  }

  /** A step of process `x`: what it does to its own child and its own lifetime lock. */
  lemma StepMoves(s: State, x: Pid, act: Action)
    requires x < |s.procs| && Next(s, Step(x, act)).Some?
    ensures OnlyMoves(s, Next(s, Step(x, act)).value, x)
    ensures var p, q := s.procs[x], Next(s, Step(x, act)).value.procs[x];
      && q.role == p.role
      && (p.child.None? && q.child.Some? ==> p.role.Supervise? && p.pc == Reloaded && q.child == p.config)
      && (p.role.Supervise? && p.locked && !q.locked ==> p.pc == Closing || p.pc == Start || p.pc == Unlocked)
      && (!InSupervise(p) ==> Aside(s, Next(s, Step(x, act)).value, x))
  {
    var p, t := s.procs[x], Next(s, Step(x, act)).value;
    if p.role.Observe? {
      ObserveMoves(s, x, act, t);
    } else if p.pc == Start || p.pc.Closing? || p.pc.Unlocked? {
      CommonMoves(s, x, act, t);
    } else if p.role.Edit? {
      EditMoves(s, x, act, t);
    } else if p.role.Create? {
      CreateMoves(s, x, act, t);
    } else if p.pc == Named || p.pc == Loaded || p.pc == Opened {
      AcquireMoves(s, x, act, t);
    } else if p.role.Supervise? {
      SuperviseMoves(s, x, act, t);
    } else {
      DeleteMoves(s, x, act, t);
    }
  }

  /** A step changes process `x` only if it is a step of `x`. */
  lemma WhoMoved(s: State, e: Event, x: Pid)
    requires Next(s, e).Some? && x < |s.procs|
    ensures x < |Next(s, e).value.procs|
    ensures Next(s, e).value.procs[x] != s.procs[x] ==> e.Step? && e.pid == x
  {
    if e.Step? && e.pid < |s.procs| { StepMoves(s, e.pid, e.action); }
  }
}
