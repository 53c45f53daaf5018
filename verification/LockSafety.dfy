/** Safety of the lock protocol over whole runs, with any number of processes of every kind. */
module LockSafety {
  import opened Wrappers
  import opened LockProtocol
  import opened LockInvariant
  import opened LockMoves
  import opened LockSteps
  import opened Model
  import Lifecycle
  import ControlClient
  import C = ControlProtocol

  /** A run of the system from an empty store. */
  ghost predicate IsRun(tr: seq<State>) {
    && |tr| > 0 && tr[0] == EMPTY
    && forall i :: 0 <= i < |tr| - 1 ==> StepAt(tr, i)
  }

  /** Some process takes a step from instant `i` to the next. */
  ghost predicate StepAt(tr: seq<State>, i: nat)
    requires i < |tr| - 1
  {
    exists e :: Next(tr[i], e) == Some(tr[i + 1])
  }

  /** The invariant holds throughout every run. */
  lemma {:induction false} RunInv(tr: seq<State>, i: nat)
    requires IsRun(tr) && i < |tr|
    ensures Inv(tr[i]) && ServicesInv(tr[i])
  {
    if i > 0 {
      RunInv(tr, i - 1);
      assert StepAt(tr, i - 1);
      var e :| Next(tr[i - 1], e) == Some(tr[i]);
      StepKeepsInv(tr[i - 1], e);
    }
  }

  /** No live child of VM `id`. */
  ghost predicate Offline(s: State, id: Id) {
    forall y :: 0 <= y < |s.procs| && s.procs[y].child.Some? ==> s.procs[y].child.value.id != id
  }

  // ---------- Children and locks ----------

  /**
    A live child's supervisor holds the flock on the inode that its VM's lock path names: for
    supervisors the inode lock is the path lock, although `Delete` unlinks lock files.
   */
  lemma LiveChildHoldsPathLock(tr: seq<State>, i: nat, x: Pid)
    requires IsRun(tr) && i < |tr| && x < |tr[i].procs| && tr[i].procs[x].child.Some?
    ensures var s, p := tr[i], tr[i].procs[x];
      && p.role == Supervise(p.child.value.id)
      && KeyOf(p.child.value.id) in s.lockFiles
      && s.lockFiles[KeyOf(p.child.value.id)] in s.flocks
      && s.flocks[s.lockFiles[KeyOf(p.child.value.id)]] == x
  {
    RunInv(tr, i);
    assert ProcInv(tr[i], x);
  }

  /** At most one child is alive per VM ID, and even per 12-digit runtime key. */
  lemma OneChildPerVm(tr: seq<State>, i: nat, x: Pid, y: Pid)
    requires IsRun(tr) && i < |tr| && x < |tr[i].procs| && y < |tr[i].procs|
    requires tr[i].procs[x].child.Some? && tr[i].procs[y].child.Some?
    requires KeyOf(tr[i].procs[x].child.value.id) == KeyOf(tr[i].procs[y].child.value.id)
    ensures x == y
  {
    LiveChildHoldsPathLock(tr, i, x);
    LiveChildHoldsPathLock(tr, i, y);
  }

  /** The keys of two VMs on disk differ, although a key drops 20 of the 32 digits. */
  lemma KeysAreDistinct(tr: seq<State>, i: nat, m: Name, n: Name)
    requires IsRun(tr) && i < |tr| && m in tr[i].configs && n in tr[i].configs && m != n
    requires !Rolling(tr[i], m) && !Rolling(tr[i], n)
    ensures KeyOf(tr[i].configs[m].id) != KeyOf(tr[i].configs[n].id)
  {
    RunInv(tr, i);
    assert ConfigInv(tr[i], m) && ConfigInv(tr[i], n);
  }

  /**
    The name lock makes keying the flock by inode equal to keying it by path: whatever a supervisor
    or deleter is about to lock, or holds while the VM is on disk, is the inode its path names.
   */
  lemma NameLockMakesInodePath(tr: seq<State>, i: nat, x: Pid)
    requires IsRun(tr) && i < |tr| && x < |tr[i].procs| && RelyPath(tr[i].procs[x])
    ensures AtPath(tr[i], ProcKey(tr[i].procs[x]), tr[i].procs[x].fd)
  {
    RunInv(tr, i);
    assert ProcInv(tr[i], x);
  }

  /** A child starts from the config that is on disk at that moment, under the expected ID. */
  lemma ChildStartsFromDisk(tr: seq<State>, i: nat, x: Pid)
    requires IsRun(tr) && i + 1 < |tr| && x < |tr[i].procs| && x < |tr[i + 1].procs|
    requires tr[i].procs[x].child.None? && tr[i + 1].procs[x].child.Some?
    ensures var p := tr[i].procs[x];
      && p.name in tr[i].configs && tr[i + 1].procs[x].child == Some(tr[i].configs[p.name])
      && p.role == Supervise(tr[i].configs[p.name].id) && p.locked && p.named
  {
    RunInv(tr, i);
    assert StepAt(tr, i);
    var e :| Next(tr[i], e) == Some(tr[i + 1]);
    WhoMoved(tr[i], e, x);
    StepMoves(tr[i], x, e.action);
    assert ProcInv(tr[i], x);
  }

  /** A supervisor that owns its lifetime lock and has no child is alone: its VM has no live child. */
  lemma ChildlessHolderMeansOffline(s: State, x: Pid)
    requires Inv(s) && x < |s.procs| && s.procs[x].role.Supervise? && s.procs[x].locked && s.procs[x].child.None?
    ensures Offline(s, s.procs[x].role.expected)
  {
    assert ProcInv(s, x);
    forall y | 0 <= y < |s.procs| && s.procs[y].child.Some?
      ensures s.procs[y].child.value.id != s.procs[x].role.expected
    {
      assert ProcInv(s, y);
    }
  }

  /**
    Every exit of Supervise, after a run ended or on an error return, has reaped the child before the
    lifetime lock is released: no child of that VM is alive at the release.
   */
  lemma ReapedBeforeRelease(tr: seq<State>, i: nat, x: Pid)
    requires IsRun(tr) && i + 1 < |tr| && x < |tr[i].procs| && x < |tr[i + 1].procs|
    requires tr[i].procs[x].role.Supervise? && tr[i].procs[x].locked && !tr[i + 1].procs[x].locked
    ensures tr[i].procs[x].child.None? && Offline(tr[i], tr[i].procs[x].role.expected)
  {
    RunInv(tr, i);
    assert StepAt(tr, i);
    var e :| Next(tr[i], e) == Some(tr[i + 1]);
    WhoMoved(tr[i], e, x);
    StepMoves(tr[i], x, e.action);
    assert ProcInv(tr[i], x);
    ChildlessHolderMeansOffline(tr[i], x);
  }

  /** A process that has ended holds nothing: no lock survives its holder. */
  lemma EndedHoldsNothing(tr: seq<State>, i: nat, x: Pid)
    requires IsRun(tr) && i < |tr| && x < |tr[i].procs|
    requires tr[i].procs[x].pc == End || tr[i].procs[x].pc.Answered?
    ensures x !in tr[i].nameLocks.Values && x !in tr[i].flocks.Values && tr[i].procs[x].child.None?
  {
    RunInv(tr, i);
    assert ProcInv(tr[i], x);
  }

  // ---------- Deletion ----------

  /** The lock file a path names is replaced or unlinked only while no child of that key is alive. */
  lemma UnlinkOnlyWhenOffline(s: State, e: Event, k: Key, y: Pid)
    requires Inv(s) && Next(s, e).Some? && k in s.lockFiles && y < |s.procs| && s.procs[y].child.Some?
    requires k !in Next(s, e).value.lockFiles || Next(s, e).value.lockFiles[k] != s.lockFiles[k]
    ensures KeyOf(s.procs[y].child.value.id) != k
  {
    var x := e.pid;
    assert ProcInv(s, y) && ProcInv(s, x);
    OnlyUnlinkUnlinks(s, x, e.action, k);
    SoleClaim(s, x, y);
  }

  /** The lock file at the path of `k` is still there. */
  ghost predicate KeepsFile(s: State, t: State, k: Key) {
    k in s.lockFiles && k in t.lockFiles && t.lockFiles[k] == s.lockFiles[k]
  }

  lemma OpenLockKeepsFiles(s: State, x: Pid, k: Key)
    requires x < |s.procs| && k in s.lockFiles
    ensures KeepsFile(s, OpenLock(s, x), k)
  {
  }

  lemma AcquireKeepsFiles(s: State, x: Pid, act: Action, t: State, k: Key)
    requires x < |s.procs| && k in s.lockFiles && AcquireStep(s, x, act) == Some(t)
    ensures KeepsFile(s, t, k)
  {
    if act != Fail && s.procs[x].pc == Loaded {
      OpenLockKeepsFiles(s.(runtimeDirs := s.runtimeDirs + {ProcKey(s.procs[x])}), x, k);
    }
  }

  lemma SuperviseKeepsFiles(s: State, x: Pid, act: Action, t: State, k: Key)
    requires x < |s.procs| && k in s.lockFiles && SuperviseStep(s, x, act) == Some(t)
    ensures KeepsFile(s, t, k)
  {
  }

  lemma EditKeepsFiles(s: State, x: Pid, act: Action, t: State, k: Key)
    requires x < |s.procs| && k in s.lockFiles && EditStep(s, x, act) == Some(t)
    ensures KeepsFile(s, t, k)
  {
  }

  lemma CommonKeepsFiles(s: State, x: Pid, act: Action, t: State, k: Key)
    requires x < |s.procs| && k in s.lockFiles && CommonStep(s, x, act) == Some(t)
    ensures KeepsFile(s, t, k)
  {
  }

  lemma ObserveKeepsFiles(s: State, x: Pid, act: Action, t: State, k: Key)
    requires x < |s.procs| && k in s.lockFiles && s.procs[x].role.Observe? && ObserveStep(s, x, act) == Some(t)
    ensures KeepsFile(s, t, k)
  {
    if act.Conclude? {
    } else if act == Advance {
      OpenLockKeepsFiles(s, x, k);
    } else if s.procs[x].pc == Owned {
    } else {
    }
  }

  lemma DeleteKeepsFiles(s: State, x: Pid, act: Action, t: State, k: Key)
    requires x < |s.procs| && k in s.lockFiles && DeleteStep(s, x, act) == Some(t)
    ensures KeepsFile(s, t, k) || (ProcKey(s.procs[x]) == k && s.procs[x].pc == VmRemoved)
  {
  }

  lemma CreateKeepsFiles(s: State, x: Pid, act: Action, t: State, k: Key)
    requires x < |s.procs| && s.procs[x].role.Create? && k in s.lockFiles && CreateStep(s, x, act) == Some(t)
    ensures KeepsFile(s, t, k) || (ProcKey(s.procs[x]) == k && s.procs[x].pc == RollingBack)
  {
  }

  /** Only a deletion past its checks, or a failed creation, unlinks a lock file, and only its own key's. */
  lemma OnlyUnlinkUnlinks(s: State, x: Pid, act: Action, k: Key)
    requires Next(s, Step(x, act)).Some? && k in s.lockFiles
    ensures x < |s.procs|
    ensures var t, p := Next(s, Step(x, act)).value, s.procs[x];
      || KeepsFile(s, t, k)
      || (ProcKey(p) == k && ((p.role.Delete? && p.pc == VmRemoved) || (p.role.Create? && p.pc == RollingBack)))
  {
    var p, t := s.procs[x], Next(s, Step(x, act)).value;
    if p.role.Observe? {
      ObserveKeepsFiles(s, x, act, t, k);
    } else if p.pc == Start || p.pc.Closing? || p.pc.Unlocked? {
      CommonKeepsFiles(s, x, act, t, k);
    } else if p.role.Edit? {
      EditKeepsFiles(s, x, act, t, k);
    } else if p.role.Create? {
      CreateKeepsFiles(s, x, act, t, k);
    } else if p.pc == Named || p.pc == Loaded || p.pc == Opened {
      AcquireKeepsFiles(s, x, act, t, k);
    } else if p.role.Supervise? {
      SuperviseKeepsFiles(s, x, act, t, k);
    } else {
      DeleteKeepsFiles(s, x, act, t, k);
    }
  }

  /**
    Delete removes a VM's files only when no child of that VM is alive: at the removal of the VM
    directory, at every unlink of the lock file and at the removal of the runtime directory.
   */
  lemma DeleteOnlyWhenOffline(tr: seq<State>, i: nat, x: Pid)
    requires IsRun(tr) && i < |tr| && x < |tr[i].procs| && tr[i].procs[x].role.Delete?
    requires tr[i].procs[x].pc == Inspected || tr[i].procs[x].pc == VmRemoved
    ensures Offline(tr[i], ProcId(tr[i].procs[x]))
  {
    RunInv(tr, i);
    var s := tr[i];
    assert ProcInv(s, x);
    forall y | 0 <= y < |s.procs| && s.procs[y].child.Some?
      ensures s.procs[y].child.value.id != ProcId(s.procs[x])
    {
      assert ProcInv(s, y);
      if s.procs[x].pc == VmRemoved { SoleClaim(s, x, y); } else { DeleterExcludes(s, x, y); }
    }
  }

  // ---------- What stop, status and the deletion check may conclude ----------

  /** Some instant of the run between `a` and `b` had no live child of VM `id`. */
  ghost predicate WasOffline(tr: seq<State>, a: nat, b: nat, id: Id)
    requires a <= b < |tr|
  {
    exists j :: a <= j <= b && Offline(tr[j], id)
  }

  /** What a client's program point stands for, given that its call began at instant `a`. */
  ghost predicate Justified(tr: seq<State>, a: nat, b: nat, x: Pid)
    requires a <= b < |tr| && x < |tr[b].procs| && tr[b].procs[x].role.Observe?
  {
    var p := tr[b].procs[x];
    match p.pc
    case Connected(peer, conn) => Told(tr[b], peer, conn, p.role.observed) ==> WasOffline(tr, a, b, p.role.observed)
    case Opened => AtPath(tr[b], ProcKey(p), p.fd) || WasOffline(tr, a, b, p.role.observed)
    case Owned => WasOffline(tr, a, b, p.role.observed)
    case Answered(answer) => Lifecycle.ClaimsOffline(p.role.call, answer) ==> WasOffline(tr, a, b, p.role.observed)
    case _ => true
  }

  /** Taking the flock of the inode at the path proves the VM offline at that instant. */
  lemma FreePathLockMeansOffline(s: State, x: Pid)
    requires Inv(s) && x < |s.procs| && s.procs[x].fd.Some? && s.procs[x].fd.value !in s.flocks
    requires AtPath(s, ProcKey(s.procs[x]), s.procs[x].fd)
    ensures Offline(s, ProcId(s.procs[x]))
  {
    forall y | 0 <= y < |s.procs| && s.procs[y].child.Some?
      ensures s.procs[y].child.value.id != ProcId(s.procs[x])
    {
      assert ProcInv(s, y);
    }
  }

  /** On connection `conn` the service of VM `id` has told a stop of its success. */
  ghost predicate Tells(live: Option<C.State>, conn: nat, id: Id) {
    && live.Some? && live.value.id == id && conn < |live.value.conns|
    && (var c := live.value.conns[conn];
        C.IsStop(c) && exists k :: 0 <= k < |c.written| && c.written[k].body.Success?)
  }

  ghost predicate Told(s: State, peer: Pid, conn: nat, id: Id) {
    peer < |s.procs| && Tells(s.procs[peer].live, conn, id)
  }

  /** While the service that wrote the success still runs, the VM has no live child. */
  lemma ToldMeansOffline(s: State, peer: Pid, conn: nat, id: Id)
    requires Inv(s) && ServicesInv(s) && Told(s, peer, conn, id)
    requires s.procs[peer].pc == Launched || s.procs[peer].pc == Serving
    ensures Offline(s, id)
  {
    assert ServiceInv(s.procs[peer]);
    var l := s.procs[peer].live.value;
    var c := l.conns[conn];
    var k :| 0 <= k < |c.written| && c.written[k].body.Success?;
    assert C.ConnInv(l, c);
    C.SuccessOfCall(l, c, k);
    assert ProcInv(s, peer);
    ChildlessHolderMeansOffline(s, peer);
  }

  /** A service changes only while it runs. */
  lemma ServiceMoves(s: State, x: Pid, act: Action, t: State)
    requires x < |s.procs| && SuperviseStep(s, x, act) == Some(t)
    ensures |t.procs| == |s.procs|
    ensures t.procs[x].live == s.procs[x].live || t.procs[x].pc == Launched || t.procs[x].pc == Serving
  {
    if s.procs[x].pc != Launched && s.procs[x].pc != Serving {
      LaunchServes(s, s.procs[x], act);
    }
  }

  lemma LaunchServes(s: State, p: Proc, act: Action)
    requires LaunchMove(s, p, act).Some?
    ensures LaunchMove(s, p, act).value.live == p.live || LaunchMove(s, p, act).value.pc == Launched
  {
  }

  lemma ServiceOfStep(s: State, x: Pid, act: Action)
    requires x < |s.procs| && Next(s, Step(x, act)).Some?
    ensures var t := Next(s, Step(x, act)).value;
      && |t.procs| == |s.procs|
      && (t.procs[x].live == s.procs[x].live || t.procs[x].pc == Launched || t.procs[x].pc == Serving)
  {
    StepMoves(s, x, act);
    if InSupervise(s.procs[x]) { ServiceMoves(s, x, act, Next(s, Step(x, act)).value); }
  }

  lemma ServiceOfPeer(s: State, e: Event, peer: Pid)
    requires Next(s, e).Some? && peer < |s.procs|
    ensures var t := Next(s, e).value;
      && peer < |t.procs|
      && (t.procs[peer].live == s.procs[peer].live || t.procs[peer].pc == Launched || t.procs[peer].pc == Serving)
  {
    WhoMoved(s, e, peer);
    if e.Step? && e.pid == peer { ServiceOfStep(s, peer, e.action); }
  }

  /** A new process serves nobody. */
  lemma SpawnedTellsNothing(s: State, e: Event, peer: Pid)
    requires Next(s, e).Some? && |s.procs| <= peer < |Next(s, e).value.procs|
    ensures Next(s, e).value.procs[peer].live.None?
  {
    if e.Step? { StepMoves(s, e.pid, e.action); }
  }

  /** A success is written only by a service that runs. */
  lemma ToldByRunning(s: State, e: Event, peer: Pid, conn: nat, id: Id)
    requires Next(s, e).Some? && Told(Next(s, e).value, peer, conn, id) && !Told(s, peer, conn, id)
    ensures Next(s, e).value.procs[peer].pc == Launched || Next(s, e).value.procs[peer].pc == Serving
  {
    if peer < |s.procs| { ServiceOfPeer(s, e, peer); } else { SpawnedTellsNothing(s, e, peer); }
  }

  lemma WasOfflineLater(tr: seq<State>, a: nat, b: nat, c: nat, id: Id)
    requires a <= b <= c < |tr| && WasOffline(tr, a, b, id)
    ensures WasOffline(tr, a, c, id)
  {
    var j :| a <= j <= b && Offline(tr[j], id);
  }

  lemma NextOfClient(s: State, x: Pid, act: Action)
    requires x < |s.procs| && s.procs[x].role.Observe?
    ensures Next(s, Step(x, act)) == ObserveStep(s, x, act)
  {
  }

  /** No other step leaves a client with an open lock file. */
  lemma ObserveOpensNothing(s: State, x: Pid, act: Action, t: State)
    requires x < |s.procs| && s.procs[x].role.Observe? && ObserveStep(s, x, act) == Some(t)
    requires s.procs[x].pc != DirReady || act != Advance
    ensures |t.procs| == |s.procs| && t.procs[x].pc != Opened
  {
    var p := s.procs[x];
    if act.Conclude? {
      ConcludeMoves(s, x, act, t);
    } else if act == Advance {
      ProbeMoves(s, x, act, t);
    } else if p.pc != Owned {
      ObserveMoveMoves(s, p, act, ObserveMove(s, p, act).value);
    }
  }

  /** The one step that does opens the file at the path. */
  lemma OpenLockAtPath(s: State, x: Pid)
    requires x < |s.procs| && s.procs[x].role.Observe?
    ensures var t := OpenLock(s, x);
      |t.procs| == |s.procs| && AtPath(t, ProcKey(t.procs[x]), t.procs[x].fd)
  {
    var t, k := OpenLock(s, x), ProcKey(s.procs[x]);
    var q := t.procs[x];
    assert q.role == s.procs[x].role && ProcKey(q) == k;
    if k in s.lockFiles {
      assert q.fd == Some(s.lockFiles[k]) && t.lockFiles == s.lockFiles;
    } else {
      assert q.fd == Some(s.nextInode) && t.lockFiles == s.lockFiles[k := s.nextInode];
    }
  }

  lemma ObserveOpensAtPath(s: State, x: Pid, t: State)
    requires x < |s.procs| && s.procs[x].role.Observe? && ObserveStep(s, x, Advance) == Some(t)
    requires s.procs[x].pc == DirReady
    ensures |t.procs| == |s.procs|
    ensures t.procs[x].pc == Opened ==> AtPath(t, ProcKey(t.procs[x]), t.procs[x].fd)
  {
    OpenLockAtPath(s, x);
  }

  /** A client holds an open lock file only after it opened the one at the path. */
  lemma ObserveOpens(s: State, x: Pid, act: Action, t: State)
    requires x < |s.procs| && s.procs[x].role.Observe? && ObserveStep(s, x, act) == Some(t)
    ensures |t.procs| == |s.procs|
    ensures t.procs[x].pc == Opened ==> AtPath(t, ProcKey(t.procs[x]), t.procs[x].fd)
  {
    if s.procs[x].pc == DirReady && act == Advance {
      ObserveOpensAtPath(s, x, t);
    } else {
      ObserveOpensNothing(s, x, act, t);
    }
  }

  lemma TryFlockOwns(s: State, x: Pid, busy: Pc)
    requires x < |s.procs| && busy != Owned
    ensures var t := TryFlock(s, x, busy);
      |t.procs| == |s.procs| && (t.procs[x].pc == Owned ==> s.procs[x].fd.Some? && s.procs[x].fd.value !in s.flocks)
  {
  }

  lemma ConcludeOwns(s: State, x: Pid, act: Action, t: State)
    requires x < |s.procs| && s.procs[x].role.Observe? && act.Conclude? && ObserveStep(s, x, act) == Some(t)
    requires |t.procs| == |s.procs|
    ensures t.procs[x].pc == Owned ==>
      s.procs[x].pc == Opened && s.procs[x].fd.Some? && s.procs[x].fd.value !in s.flocks
  {
    if s.procs[x].pc == Opened {
      TryFlockOwns(s, x, Answered(Lifecycle.AfterBusy(s.procs[x].role.call, act.starting)));
    }
  }

  lemma OthersOwnNothing(s: State, x: Pid, act: Action, t: State)
    requires x < |s.procs| && s.procs[x].role.Observe? && !act.Conclude? && ObserveStep(s, x, act) == Some(t)
    requires |t.procs| == |s.procs|
    ensures t.procs[x].pc != Owned
  {
    var p := s.procs[x];
    if act == Advance {
      ProbeMoves(s, x, act, t);
    } else if p.pc != Owned {
      ObserveMoveMoves(s, p, act, ObserveMove(s, p, act).value);
    }
  }

  /** A client owns the lifetime lock only after it found the inode it opened unlocked. */
  lemma ObserveOwns(s: State, x: Pid, act: Action, t: State)
    requires x < |s.procs| && s.procs[x].role.Observe? && ObserveStep(s, x, act) == Some(t) && |t.procs| == |s.procs|
    ensures t.procs[x].pc == Owned ==>
      s.procs[x].pc == Opened && s.procs[x].fd.Some? && s.procs[x].fd.value !in s.flocks
  {
    if act.Conclude? { ConcludeOwns(s, x, act, t); } else { OthersOwnNothing(s, x, act, t); }
  }

  /** The end of a client's attempt at the lock claims the VM offline only when the lock was taken. */
  lemma ConcludeClaims(s: State, x: Pid, act: Action, t: State)
    requires x < |s.procs| && s.procs[x].role.Observe? && ObserveStep(s, x, act) == Some(t) && |t.procs| == |s.procs|
    requires act.Conclude? && t.procs[x].pc.Answered?
    ensures Lifecycle.ClaimsOffline(s.procs[x].role.call, t.procs[x].pc.answer) ==> s.procs[x].pc == Owned
  {
    Lifecycle.BusyIsNeverOffline(s.procs[x].role.call, act.starting);
  }

  /** What a supervisor wrote claims the VM offline only by the success of a stop of that VM. */
  lemma ReceivedClaims(s: State, peer: Pid, conn: nat, frames: nat, cmd: C.Command, id: Id, call: Lifecycle.Call)
    requires ServicesInv(s) && CanReceive(s, peer, conn, frames, cmd) && Asks(call, cmd)
    requires var decision := Lifecycle.AfterControl(call, Received(s, peer, conn, frames, cmd, id));
      decision.Answered? && Lifecycle.ClaimsOffline(call, decision.answer)
    ensures Told(s, peer, conn, id)
  {
    assert ServiceInv(s.procs[peer]);
    var l := s.procs[peer].live.value;
    assert C.ConnInv(l, l.conns[conn]);
    Lifecycle.OfflineFromControl(call, Received(s, peer, conn, frames, cmd, id));
    ControlClient.VerdictOfServer(l, l.conns[conn], frames, id, cmd);
  }

  /** Without any frame of a supervisor nothing is claimed. */
  lemma NoAnswerClaimsNothing(p: Proc, control: Lifecycle.Control)
    requires p.role.Observe? && (control == Lifecycle.Unavailable || control == Lifecycle.Garbled)
    ensures Decided(p, control).pc.Answered? ==> !Lifecycle.ClaimsOffline(p.role.call, Decided(p, control).pc.answer)
  {
    Lifecycle.OfflineFromControl(p.role.call, control);
  }

  lemma ExchangeClaims(s: State, p: Proc, act: Action, q: Proc)
    requires ServicesInv(s) && p.role.Observe? && (p.pc == Start || p.pc.Connected?)
    requires ExchangeMove(s, p, act) == Some(q)
    ensures q.pc.Answered? && Lifecycle.ClaimsOffline(p.role.call, q.pc.answer) ==>
      p.pc.Connected? && Told(s, p.pc.peer, p.pc.conn, p.role.observed)
  {
    if act.Exchange? {
      NoAnswerClaimsNothing(p, act.control);
    } else if act.Receive? && q.pc.Answered? && Lifecycle.ClaimsOffline(p.role.call, q.pc.answer) {
      ReceivedClaims(s, p.pc.peer, p.pc.conn, act.frames, act.cmd, p.role.observed, p.role.call);
    }
  }

  lemma MoveClaims(s: State, p: Proc, act: Action, q: Proc)
    requires ServicesInv(s) && p.role.Observe? && ObserveMove(s, p, act) == Some(q)
    ensures q.pc.Answered? && Lifecycle.ClaimsOffline(p.role.call, q.pc.answer) ==>
      p.pc.Connected? && Told(s, p.pc.peer, p.pc.conn, p.role.observed)
  {
    if act != Fail && (p.pc == Start || p.pc.Connected?) { ExchangeClaims(s, p, act, q); }
  }

  /** A client claims the VM offline only after owning the lock or being told of a stop's success. */
  lemma ObserveClaims(s: State, x: Pid, act: Action, t: State)
    requires ServicesInv(s) && x < |s.procs| && s.procs[x].role.Observe? && ObserveStep(s, x, act) == Some(t)
    requires |t.procs| == |s.procs|
    ensures t.procs[x].pc.Answered? && Lifecycle.ClaimsOffline(s.procs[x].role.call, t.procs[x].pc.answer) ==>
      || s.procs[x].pc == Owned
      || (s.procs[x].pc.Connected? && Told(s, s.procs[x].pc.peer, s.procs[x].pc.conn, s.procs[x].role.observed))
  {
    var p := s.procs[x];
    if act.Conclude? {
      if t.procs[x].pc.Answered? { ConcludeClaims(s, x, act, t); }
    } else if act == Advance && (p.pc != DirReady || ProcKey(p) in s.runtimeDirs) {
      ProbeMoves(s, x, act, t);
    } else if p.pc != Owned {
      MoveClaims(s, p, act, ObserveMove(s, p, act).value);
    }
  }

  /** A client that connects was told nothing on that connection yet. */
  lemma ConnectTellsNothing(s: State, peer: Pid, conn: nat, id: Id)
    requires CanConnect(s, peer, conn)
    ensures !Told(s, peer, conn, id)
  {
  }

  lemma MoveConnects(s: State, p: Proc, act: Action, q: Proc)
    requires p.role.Observe? && ObserveMove(s, p, act) == Some(q) && q.pc.Connected?
    ensures CanConnect(s, q.pc.peer, q.pc.conn)
  {
    if act.Connect? {
    } else if act.Exchange? {
    } else if act.Receive? && p.pc.Connected? {
      DecidedMoves(p, Received(s, p.pc.peer, p.pc.conn, act.frames, act.cmd, p.role.observed));
    } else {
    }
  }

  lemma ObserveConnects(s: State, x: Pid, act: Action, t: State)
    requires x < |s.procs| && s.procs[x].role.Observe? && ObserveStep(s, x, act) == Some(t)
    requires |t.procs| == |s.procs| && t.procs[x].pc.Connected?
    ensures CanConnect(s, t.procs[x].pc.peer, t.procs[x].pc.conn)
  {
    if act.Conclude? {
      ConcludeMoves(s, x, act, t);
    } else if act == Advance {
      ProbeMoves(s, x, act, t);
    } else if s.procs[x].pc != Owned {
      MoveConnects(s, s.procs[x], act, t.procs[x]);
    }
  }

  /** A client's own step changes no service. */
  lemma OwnStepTells(s: State, x: Pid, act: Action, t: State, peer: Pid, conn: nat, id: Id)
    requires x < |s.procs| && Aside(s, t, x)
    ensures Told(t, peer, conn, id) <==> Told(s, peer, conn, id)
  {
  }

  /** While another process moves, an open lock file stays at its path or the VM is offline. */
  lemma OpenedByOthers(tr: seq<State>, a: nat, b: nat, x: Pid, e: Event)
    requires IsRun(tr) && a <= b && b + 1 < |tr| && x < |tr[b].procs| && tr[b].procs[x].role.Observe?
    requires tr[b].procs[x].pc == Opened && Justified(tr, a, b, x) && Next(tr[b], e) == Some(tr[b + 1])
    requires x < |tr[b + 1].procs| && tr[b + 1].procs[x] == tr[b].procs[x]
    ensures Justified(tr, a, b + 1, x)
  {
    var p, k := tr[b].procs[x], ProcKey(tr[b].procs[x]);
    RunInv(tr, b);
    if WasOffline(tr, a, b, p.role.observed) {
      WasOfflineLater(tr, a, b, b + 1, p.role.observed);
    } else if !AtPath(tr[b + 1], k, p.fd) {
      forall y | 0 <= y < |tr[b].procs| && tr[b].procs[y].child.Some?
        ensures tr[b].procs[y].child.value.id != p.role.observed
      {
        UnlinkOnlyWhenOffline(tr[b], e, k, y);
      }
      assert Offline(tr[b], p.role.observed);
    }
  }

  /** While another process moves, a success written to a connected client comes from an offline VM. */
  lemma ConnectedByOthers(tr: seq<State>, a: nat, b: nat, x: Pid, e: Event)
    requires IsRun(tr) && a <= b && b + 1 < |tr| && x < |tr[b].procs| && tr[b].procs[x].role.Observe?
    requires tr[b].procs[x].pc.Connected? && Justified(tr, a, b, x) && Next(tr[b], e) == Some(tr[b + 1])
    requires x < |tr[b + 1].procs| && tr[b + 1].procs[x] == tr[b].procs[x]
    ensures Justified(tr, a, b + 1, x)
  {
    var p, id := tr[b].procs[x], tr[b].procs[x].role.observed;
    RunInv(tr, b + 1);
    if WasOffline(tr, a, b, id) {
      WasOfflineLater(tr, a, b, b + 1, id);
    } else if Told(tr[b + 1], p.pc.peer, p.pc.conn, id) {
      ToldByRunning(tr[b], e, p.pc.peer, p.pc.conn, id);
      ToldMeansOffline(tr[b + 1], p.pc.peer, p.pc.conn, id);
    }
  }

  lemma JustifiedByOthers(tr: seq<State>, a: nat, b: nat, x: Pid, e: Event)
    requires IsRun(tr) && a <= b && b + 1 < |tr| && x < |tr[b].procs| && tr[b].procs[x].role.Observe?
    requires Justified(tr, a, b, x) && Next(tr[b], e) == Some(tr[b + 1])
    requires x < |tr[b + 1].procs| && tr[b + 1].procs[x] == tr[b].procs[x]
    ensures Justified(tr, a, b + 1, x)
  {
    var p := tr[b].procs[x];
    if p.pc == Opened {
      OpenedByOthers(tr, a, b, x, e);
    } else if p.pc.Connected? {
      ConnectedByOthers(tr, a, b, x, e);
    } else if WasOffline(tr, a, b, p.role.observed) {
      WasOfflineLater(tr, a, b, b + 1, p.role.observed);
    }
  }

  /** A client's own step keeps its program point justified. */
  lemma JustifiedByOwnStep(tr: seq<State>, a: nat, b: nat, x: Pid, act: Action)
    requires IsRun(tr) && a <= b && b + 1 < |tr| && x < |tr[b].procs| && tr[b].procs[x].role.Observe?
    requires Justified(tr, a, b, x) && ObserveStep(tr[b], x, act) == Some(tr[b + 1])
    ensures x < |tr[b + 1].procs| && tr[b + 1].procs[x].role == tr[b].procs[x].role && Justified(tr, a, b + 1, x)
  {
    var p := tr[b].procs[x];
    RunInv(tr, b);
    ObserveMoves(tr[b], x, act, tr[b + 1]);
    if WasOffline(tr, a, b, p.role.observed) {
      WasOfflineLater(tr, a, b, b + 1, p.role.observed);
    } else {
      ObserveOpens(tr[b], x, act, tr[b + 1]);
      ObserveOwns(tr[b], x, act, tr[b + 1]);
      ObserveClaims(tr[b], x, act, tr[b + 1]);
      var pc := tr[b + 1].procs[x].pc;
      if pc == Owned {
        FreePathLockMeansOffline(tr[b], x);
      } else if pc.Connected? {
        ObserveConnects(tr[b], x, act, tr[b + 1]);
        ConnectTellsNothing(tr[b], pc.peer, pc.conn, p.role.observed);
        OwnStepTells(tr[b], x, act, tr[b + 1], pc.peer, pc.conn, p.role.observed);
      }
    }
  }

  lemma StaysJustifiedStep(tr: seq<State>, a: nat, b: nat, x: Pid)
    requires IsRun(tr) && a <= b && b + 1 < |tr| && x < |tr[b].procs| && tr[b].procs[x].role.Observe?
    requires Justified(tr, a, b, x)
    ensures x < |tr[b + 1].procs| && tr[b + 1].procs[x].role == tr[b].procs[x].role && Justified(tr, a, b + 1, x)
  {
    assert StepAt(tr, b);
    var e :| Next(tr[b], e) == Some(tr[b + 1]);
    WhoMoved(tr[b], e, x);
    if tr[b + 1].procs[x] == tr[b].procs[x] {
      JustifiedByOthers(tr, a, b, x, e);
    } else {
      NextOfClient(tr[b], x, e.action);
      JustifiedByOwnStep(tr, a, b, x, e.action);
    }
  }

  /** From the start of its call on, a client's program point stays justified. */
  lemma {:induction false} StaysJustified(tr: seq<State>, a: nat, b: nat, x: Pid)
    requires IsRun(tr) && a <= b < |tr| && x < |tr[a].procs|
    requires tr[a].procs[x].role.Observe? && tr[a].procs[x].pc == Start
    ensures x < |tr[b].procs| && tr[b].procs[x].role == tr[a].procs[x].role && Justified(tr, a, b, x)
    decreases b
  {
    if a < b {
      StaysJustified(tr, a, b - 1, x);
      StaysJustifiedStep(tr, a, b - 1, x);
    }
  }

  /**
    A Stop that returns nil, a Status of "stopped" and a DeleteAllowed that returns nil each imply an
    instant during the call at which the VM had no live child, whether the answer came from the
    supervisor or from the lifetime lock, and even when the lock taken was on an inode that a
    concurrent Delete had unlinked.
   */
  lemma OfflineAnswersAreTrue(tr: seq<State>, a: nat, b: nat, x: Pid)
    requires IsRun(tr) && a <= b < |tr| && x < |tr[a].procs| && x < |tr[b].procs|
    requires tr[a].procs[x].role.Observe? && tr[a].procs[x].pc == Start
    requires tr[b].procs[x].pc.Answered? && Lifecycle.ClaimsOffline(tr[a].procs[x].role.call, tr[b].procs[x].pc.answer)
    ensures exists j :: a <= j <= b && Offline(tr[j], tr[a].procs[x].role.observed)
  {
    StaysJustified(tr, a, b, x);
    assert WasOffline(tr, a, b, tr[a].procs[x].role.observed);
  }
}
