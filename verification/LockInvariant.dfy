/** The invariant of the lock protocol, and that every step of every process keeps it. */
module LockInvariant {
  import opened Wrappers
  import opened LockProtocol
  import Lifecycle

  /** The runtime directory of key `k` exists and was made for the VM named `n`. */
  predicate Owns(s: State, k: Key, n: Name) {
    k in s.runtimeDirs && k in s.owner && s.owner[k] == n
  }

  /** The lock file at the path of key `k` is inode `fd`. */
  predicate AtPath(s: State, k: Key, fd: Option<Inode>) {
    k in s.lockFiles && fd == Some(s.lockFiles[k])
  }

  predicate IsRolling(p: Proc) {
    p.role.Create? && (p.pc == RollingBack || p.pc == RolledDir)
  }

  /** The holder of the name lock of `n` is undoing a failed creation. */
  predicate Rolling(s: State, n: Name) {
    n in s.nameLocks && s.nameLocks[n] < |s.procs| && IsRolling(s.procs[s.nameLocks[n]])
  }

  ghost predicate SuperviseInv(s: State, p: Proc)
    requires p.role.Supervise?
  {
    var pc, k := p.pc, ProcKey(p);
    // Which locks are held where.
    && (pc == Start || pc == Serving || pc == End ==> !p.named)
    && (pc == Named || pc == Loaded || pc == Opened || pc == Owned || pc == Reloaded ==> p.named)
    && (pc == Launching || pc == Launched ==> p.named)
    && (p.locked <==> pc == Owned || pc == Reloaded || pc == Launching || pc == Launched || pc == Serving
                      || pc == Unwinding || pc == Closing)
    && !(pc == Inspected || pc == VmRemoved || pc == Checked || pc == Made || pc == RollingBack || pc == RolledDir
         || pc.Connected? || pc == Probing || pc == DirReady || pc.Answered?)
    // What the locks protect.
    && (pc == Loaded || pc == Opened || p.locked ==>
          p.name in s.configs && s.configs[p.name].id == p.role.expected && Owns(s, k, p.name))
    && (pc == Opened || p.locked ==> AtPath(s, k, p.fd))
    && (p.locked ==> !Rolling(s, p.name))
    && (pc == Reloaded ==> p.config == Some(s.configs[p.name]))
    && (p.child.Some? ==>
          (pc == Launching || pc == Launched || pc == Serving) && p.child.value.id == p.role.expected)
  }

  ghost predicate DeleteInv(s: State, p: Proc)
    requires p.role.Delete?
  {
    var pc, k := p.pc, ProcKey(p);
    && (pc == Start || pc == Named || pc == Loaded || pc == Opened || pc == Owned || pc == Inspected
        || pc == VmRemoved || pc == Closing || pc == Unlocked || pc == End)
    && (p.named <==> pc != Start && pc != End)
    && (p.locked <==> pc == Owned || pc == Inspected || pc == VmRemoved || pc == Closing)
    && (pc == Loaded || pc == Opened || pc == Owned || pc == Inspected ==>
          p.name in s.configs && p.config == Some(s.configs[p.name]) && Owns(s, k, p.name))
    && (pc == Opened || pc == Owned || pc == Inspected ==> AtPath(s, k, p.fd))
    && (pc == VmRemoved ==> p.name !in s.configs && p.config.Some? && Owns(s, k, p.name))
  }

  ghost predicate CreateInv(s: State, p: Proc)
    requires p.role.Create?
  {
    var pc, k := p.pc, ProcKey(p);
    && (pc == Start || pc == Named || pc == Checked || pc == Made || pc == RollingBack || pc == RolledDir
        || pc == Unlocked || pc == End)
    && (p.named <==> pc != Start && pc != End)
    && !p.locked
    && (pc == Checked || pc == Made ==> p.name !in s.configs)
    && (pc == Made || pc == RollingBack ==> Owns(s, k, p.name))
    && (IsRolling(p) && p.name in s.configs ==> s.configs[p.name] == p.role.created)
  }

  ghost predicate EditInv(p: Proc) {
    && (p.pc == Start || p.pc == Named || p.pc == Loaded || p.pc == Unlocked || p.pc == End)
    && (p.named <==> p.pc != Start && p.pc != End)
    && !p.locked
  }

  ghost predicate ObserveInv(p: Proc) {
    && (p.pc == Start || p.pc.Connected? || p.pc == Probing || p.pc == DirReady || p.pc == Opened || p.pc == Owned
        || p.pc.Answered?)
    && !p.named
    && (p.locked <==> p.pc == Owned)
  }

  ghost predicate ProcInv(s: State, x: Pid)
    requires x < |s.procs|
  {
    var p := s.procs[x];
    && (p.named ==> p.name in s.nameLocks && s.nameLocks[p.name] == x)
    && (p.locked ==> p.fd.Some? && p.fd.value in s.flocks && s.flocks[p.fd.value] == x)
    && (p.fd.Some? ==> p.fd.value < s.nextInode)
    && (p.pc == Opened ==> p.fd.Some?)
    && (!p.role.Supervise? ==> p.child.None?)
    && match p.role
       case Supervise(_) => SuperviseInv(s, p)
       case Delete => DeleteInv(s, p)
       case Create(_) => CreateInv(s, p)
       case Edit => EditInv(p)
       case Observe(_, _) => ObserveInv(p)
  }

  /** Every VM on disk owns the runtime directory of its key, unless its creation is being undone. */
  ghost predicate ConfigInv(s: State, n: Name) {
    n in s.configs ==> Rolling(s, n) || Owns(s, KeyOf(s.configs[n].id), n)
  }

  /** Locks are held by the processes that took them, and lock files live in runtime directories. */
  ghost predicate KernelInv(s: State) {
    && (forall n :: n in s.nameLocks ==>
          s.nameLocks[n] < |s.procs| && s.procs[s.nameLocks[n]].named && s.procs[s.nameLocks[n]].name == n)
    && (forall i :: i in s.flocks ==>
          && i < s.nextInode && s.flocks[i] < |s.procs|
          && s.procs[s.flocks[i]].locked && s.procs[s.flocks[i]].fd == Some(i))
    && (forall k :: k in s.lockFiles ==> k in s.runtimeDirs && s.lockFiles[k] < s.nextInode)
  }

  ghost predicate Inv(s: State) {
    && KernelInv(s)
    && (forall x :: 0 <= x < |s.procs| ==> ProcInv(s, x))
    && (forall n :: ConfigInv(s, n))
  }

  // ---------- What a process needs of the shared state ----------

  /** Process `y` relies on the lock file it opened still being the one at its path. */
  predicate RelyPath(p: Proc) {
    || (p.role.Supervise? && (p.pc == Opened || p.locked))
    || (p.role.Delete? && (p.pc == Opened || p.pc == Owned || p.pc == Inspected))
  }

  /** Process `y` relies on owning its runtime directory. */
  predicate RelyOwner(p: Proc) {
    || RelyPath(p)
    || ((p.role.Supervise? || p.role.Delete?) && p.pc == Loaded)
    || (p.role.Delete? && p.pc == VmRemoved)
    || (p.role.Create? && (p.pc == Made || p.pc == RollingBack))
  }

  /** The part of the shared state an untouched process relies on is the same in `t`. */
  ghost predicate Undisturbed(s: State, t: State, y: Pid)
    requires y < |s.procs|
  {
    var p, k := s.procs[y], ProcKey(s.procs[y]);
    && y < |t.procs| && t.procs[y] == p && s.nextInode <= t.nextInode
    && (p.named ==> p.name in t.nameLocks && t.nameLocks[p.name] == y)
    && (p.locked && p.fd.Some? ==> p.fd.value in t.flocks && t.flocks[p.fd.value] == y)
    && (p.named ==> (p.name in t.configs <==> p.name in s.configs))
    && (p.named && p.name in s.configs ==> t.configs[p.name] == s.configs[p.name])
    && (p.role.Supervise? && p.locked && p.name in s.configs ==>
          p.name in t.configs && t.configs[p.name].id == s.configs[p.name].id)
    && (p.role.Supervise? && p.locked && Rolling(t, p.name) ==> Rolling(s, p.name))
    && (RelyOwner(p) && Owns(s, k, p.name) ==> Owns(t, k, p.name))
    && (RelyPath(p) && AtPath(s, k, p.fd) ==> AtPath(t, k, p.fd))
  }

  lemma UndisturbedKeeps(s: State, t: State, y: Pid)
    requires y < |s.procs| && ProcInv(s, y) && Undisturbed(s, t, y)
    ensures ProcInv(t, y)
  {
  }

  /** Assembles the invariant of `t` from one changed process and undisturbed others. */
  lemma Assemble(s: State, t: State, x: Pid)
    requires Inv(s) && KernelInv(t) && x < |s.procs| == |t.procs| && ProcInv(t, x)
    requires forall y :: 0 <= y < |s.procs| && y != x ==> Undisturbed(s, t, y)
    requires forall n :: ConfigInv(t, n)
    ensures Inv(t)
  {
    forall y | 0 <= y < |t.procs| ensures ProcInv(t, y) {
      if y != x {
        assert ProcInv(s, y) && Undisturbed(s, t, y);
        UndisturbedKeeps(s, t, y);
      }
    }
  }

  /** Two processes never both hold one name lock, or one flock. */
  lemma LocksExclude(s: State, x: Pid, y: Pid)
    requires Inv(s) && x < |s.procs| && y < |s.procs| && x != y
    ensures s.procs[x].named && s.procs[y].named ==> s.procs[x].name != s.procs[y].name
    ensures s.procs[x].locked && s.procs[y].locked ==> s.procs[x].fd != s.procs[y].fd
  {
    assert ProcInv(s, x) && ProcInv(s, y);
  }

  /** While a process holds the name lock, only its own program point decides whether the name is rolling back. */
  lemma RollingOf(s: State, x: Pid)
    requires Inv(s) && x < |s.procs| && s.procs[x].named
    ensures Rolling(s, s.procs[x].name) <==> IsRolling(s.procs[x])
  {
    assert ProcInv(s, x);
  }

  // ---------- Steps that change one process and nothing shared ----------

  lemma PutKeepsRolling(s: State, x: Pid, p: Proc, n: Name)
    requires x < |s.procs| && IsRolling(p) == IsRolling(s.procs[x])
    ensures Rolling(Put(s, x, p), n) == Rolling(s, n)
  {
  }

  lemma PutUndisturbs(s: State, x: Pid, p: Proc, y: Pid)
    requires Inv(s) && x < |s.procs| && y < |s.procs| && y != x
    requires p.name == s.procs[x].name && IsRolling(p) == IsRolling(s.procs[x])
    ensures Undisturbed(s, Put(s, x, p), y)
  {
    assert ProcInv(s, y);
    PutKeepsRolling(s, x, p, s.procs[y].name);
  }

  lemma PutKeepsConfigs(s: State, x: Pid, p: Proc, n: Name)
    requires Inv(s) && x < |s.procs|
    requires p.name == s.procs[x].name && IsRolling(p) == IsRolling(s.procs[x])
    ensures ConfigInv(Put(s, x, p), n)
  {
    assert ConfigInv(s, n);
    PutKeepsRolling(s, x, p, n);
  }

  lemma PutKeepsKernel(s: State, x: Pid, p: Proc)
    requires Inv(s) && x < |s.procs|
    requires p.name == s.procs[x].name && p.named == s.procs[x].named
    requires p.locked == s.procs[x].locked && (p.locked ==> p.fd == s.procs[x].fd)
    ensures KernelInv(Put(s, x, p))
  {
  }

  lemma PutKeepsInv(s: State, x: Pid, p: Proc)
    requires Inv(s) && x < |s.procs|
    requires p.name == s.procs[x].name && p.named == s.procs[x].named && IsRolling(p) == IsRolling(s.procs[x])
    requires p.locked == s.procs[x].locked && (p.locked ==> p.fd == s.procs[x].fd)
    requires ProcInv(Put(s, x, p), x)
    ensures Inv(Put(s, x, p))
  {
    var t := Put(s, x, p);
    PutKeepsKernel(s, x, p);
    forall y | 0 <= y < |s.procs| && y != x ensures Undisturbed(s, t, y) { PutUndisturbs(s, x, p, y); }
    forall n ensures ConfigInv(t, n) { PutKeepsConfigs(s, x, p, n); }
    Assemble(s, t, x);
  }

  // ---------- The name lock ----------

  lemma LockNameSelf(s: State, x: Pid)
    requires Inv(s) && x < |s.procs| && s.procs[x].pc == Start && !s.procs[x].role.Observe? && LockName(s, x).Some?
    ensures ProcInv(LockName(s, x).value, x) && KernelInv(LockName(s, x).value)
  {
    assert ProcInv(s, x);
  }

  lemma LockNameKeepsInv(s: State, x: Pid)
    requires Inv(s) && x < |s.procs| && s.procs[x].pc == Start && !s.procs[x].role.Observe? && LockName(s, x).Some?
    ensures Inv(LockName(s, x).value)
  {
    var t := LockName(s, x).value;
    LockNameSelf(s, x);
    assert forall n :: Rolling(t, n) == Rolling(s, n);
    forall y | 0 <= y < |s.procs| && y != x ensures Undisturbed(s, t, y) { assert ProcInv(s, y); }
    forall n ensures ConfigInv(t, n) { assert ConfigInv(s, n); }
    Assemble(s, t, x);
  }

  /** Giving the name lock back, at any point where no claim of the process still needs it. */
  lemma DropNameUndisturbs(s: State, x: Pid, pc: Pc, y: Pid)
    requires Inv(s) && x < |s.procs| && s.procs[x].named && y < |s.procs| && y != x
    ensures Undisturbed(s, DropName(s, x, pc), y)
  {
    assert ProcInv(s, x) && ProcInv(s, y);
    LocksExclude(s, x, y);
  }

  lemma DropNameKernel(s: State, x: Pid, pc: Pc)
    requires Inv(s) && x < |s.procs| && s.procs[x].named
    ensures KernelInv(DropName(s, x, pc))
  {
    assert ProcInv(s, x);
  }

  lemma DropNameConfigs(s: State, x: Pid, pc: Pc, n: Name)
    requires Inv(s) && x < |s.procs| && s.procs[x].named && !IsRolling(s.procs[x])
    ensures ConfigInv(DropName(s, x, pc), n)
  {
    assert ProcInv(s, x) && ConfigInv(s, n);
    assert Rolling(DropName(s, x, pc), n) == Rolling(s, n);
  }

  lemma DropNameKeepsInv(s: State, x: Pid, pc: Pc)
    requires Inv(s) && x < |s.procs| && s.procs[x].named && !IsRolling(s.procs[x])
    requires ProcInv(DropName(s, x, pc), x)
    ensures Inv(DropName(s, x, pc))
  {
    var t := DropName(s, x, pc);
    DropNameKernel(s, x, pc);
    forall y | 0 <= y < |s.procs| && y != x ensures Undisturbed(s, t, y) { DropNameUndisturbs(s, x, pc, y); }
    forall n ensures ConfigInv(t, n) { DropNameConfigs(s, x, pc, n); }
    Assemble(s, t, x);
  }

  // ---------- The lifetime lock ----------

  ghost predicate MayOpen(p: Proc) {
    (p.pc == Loaded && (p.role.Supervise? || p.role.Delete?)) || p.pc == DirReady
  }

  lemma OpenLockSelf(s: State, x: Pid)
    requires Inv(s) && x < |s.procs| && ProcKey(s.procs[x]) in s.runtimeDirs && MayOpen(s.procs[x])
    ensures ProcInv(OpenLock(s, x), x)
  {
    assert ProcInv(s, x);
    assert Rolling(OpenLock(s, x), s.procs[x].name) == Rolling(s, s.procs[x].name);
    if s.procs[x].role.Supervise? {
    } else if s.procs[x].role.Delete? {
    } else {
    }
  }

  lemma OpenNewKernel(s: State, x: Pid)
    requires Inv(s) && x < |s.procs| && ProcKey(s.procs[x]) in s.runtimeDirs && MayOpen(s.procs[x])
    requires ProcKey(s.procs[x]) !in s.lockFiles
    ensures KernelInv(OpenLock(s, x))
  {
    assert ProcInv(s, x);
  }

  lemma OpenNewUndisturbs(s: State, x: Pid, y: Pid)
    requires Inv(s) && x < |s.procs| && y < |s.procs| && y != x && ProcKey(s.procs[x]) !in s.lockFiles
    requires MayOpen(s.procs[x])
    ensures Undisturbed(s, OpenLock(s, x), y)
  {
    assert ProcInv(s, y);
    assert Rolling(OpenLock(s, x), s.procs[y].name) == Rolling(s, s.procs[y].name);
  }

  /** A new lock file gets a fresh inode: nobody relies on the path being empty. */
  lemma OpenNewKeepsInv(s: State, x: Pid)
    requires Inv(s) && x < |s.procs| && ProcKey(s.procs[x]) in s.runtimeDirs && MayOpen(s.procs[x])
    requires ProcKey(s.procs[x]) !in s.lockFiles
    ensures Inv(OpenLock(s, x))
  {
    var t := OpenLock(s, x);
    OpenLockSelf(s, x);
    OpenNewKernel(s, x);
    assert forall n :: Rolling(t, n) == Rolling(s, n);
    forall y | 0 <= y < |s.procs| && y != x ensures Undisturbed(s, t, y) { OpenNewUndisturbs(s, x, y); }
    forall n ensures ConfigInv(t, n) { assert ConfigInv(s, n); }
    Assemble(s, t, x);
  }

  lemma OpenLockKeepsInv(s: State, x: Pid)
    requires Inv(s) && x < |s.procs| && ProcKey(s.procs[x]) in s.runtimeDirs && MayOpen(s.procs[x])
    ensures Inv(OpenLock(s, x))
  {
    if ProcKey(s.procs[x]) in s.lockFiles {
      OpenLockSelf(s, x);
      assert ProcInv(s, x);
      PutKeepsInv(s, x, OpenLock(s, x).procs[x]);
    } else {
      OpenNewKeepsInv(s, x);
    }
  }

  lemma OpenedHoldsNoFlock(s: State, x: Pid)
    requires Inv(s) && x < |s.procs| && s.procs[x].pc == Opened
    ensures !s.procs[x].locked
  {
    assert ProcInv(s, x);
  }

  lemma AcquiredSelf(s: State, x: Pid, busy: Pc)
    requires Inv(s) && x < |s.procs| && s.procs[x].pc == Opened
    requires s.procs[x].fd.Some? && s.procs[x].fd.value !in s.flocks
    ensures ProcInv(TryFlock(s, x, busy), x)
  {
    var t := TryFlock(s, x, busy);
    assert ProcInv(s, x);
    assert Rolling(t, s.procs[x].name) == Rolling(s, s.procs[x].name);
    if s.procs[x].role.Supervise? {
      RollingOf(s, x);
    } else if s.procs[x].role.Delete? {
    } else {
    }
  }

  lemma AcquiredKernel(s: State, x: Pid, busy: Pc)
    requires Inv(s) && x < |s.procs| && s.procs[x].pc == Opened
    requires s.procs[x].fd.Some? && s.procs[x].fd.value !in s.flocks
    ensures KernelInv(TryFlock(s, x, busy))
  {
    OpenedHoldsNoFlock(s, x);
    assert ProcInv(s, x);
  }

  lemma BusySelf(s: State, x: Pid, busy: Pc)
    requires Inv(s) && x < |s.procs| && s.procs[x].pc == Opened
    requires if s.procs[x].role.Observe? then busy.Answered? else busy == Unlocked
    ensures ProcInv(Put(s, x, s.procs[x].(pc := busy, fd := None)), x)
  {
    assert ProcInv(s, x);
  }

  /** A flock is only granted on an inode nobody holds, so every other holder keeps its own. */
  lemma AcquiredKeepsInv(s: State, x: Pid, busy: Pc)
    requires Inv(s) && x < |s.procs| && s.procs[x].pc == Opened
    requires s.procs[x].fd.Some? && s.procs[x].fd.value !in s.flocks
    requires if s.procs[x].role.Observe? then busy.Answered? else busy == Unlocked
    ensures Inv(TryFlock(s, x, busy))
  {
    var t := TryFlock(s, x, busy);
    AcquiredSelf(s, x, busy);
    AcquiredKernel(s, x, busy);
    assert forall n :: Rolling(t, n) == Rolling(s, n);
    forall y | 0 <= y < |s.procs| && y != x ensures Undisturbed(s, t, y) { assert ProcInv(s, y); }
    forall n ensures ConfigInv(t, n) { assert ConfigInv(s, n); }
    Assemble(s, t, x);
  }

  lemma TryFlockKeepsInv(s: State, x: Pid, busy: Pc)
    requires Inv(s) && x < |s.procs| && s.procs[x].pc == Opened
    requires if s.procs[x].role.Observe? then busy.Answered? else busy == Unlocked
    ensures Inv(TryFlock(s, x, busy))
  {
    if s.procs[x].fd.Some? && s.procs[x].fd.value !in s.flocks {
      AcquiredKeepsInv(s, x, busy);
    } else {
      OpenedHoldsNoFlock(s, x);
      BusySelf(s, x, busy);
      PutKeepsInv(s, x, s.procs[x].(pc := busy, fd := None));
    }
  }

  lemma DropLifetimeKernel(s: State, x: Pid, pc: Pc)
    requires Inv(s) && x < |s.procs| && s.procs[x].locked
    requires if s.procs[x].role.Observe? then pc.Answered? else s.procs[x].pc == Closing && pc == Unlocked
    ensures KernelInv(DropLifetime(s, x, pc))
  {
    assert ProcInv(s, x);
  }

  lemma DropLifetimeSelf(s: State, x: Pid, pc: Pc)
    requires Inv(s) && x < |s.procs| && s.procs[x].locked
    requires if s.procs[x].role.Observe? then pc.Answered? else s.procs[x].pc == Closing && pc == Unlocked
    ensures ProcInv(DropLifetime(s, x, pc), x)
  {
    assert ProcInv(s, x);
    if s.procs[x].named { RollingOf(s, x); }
    assert forall n :: n != s.procs[x].name ==> Rolling(DropLifetime(s, x, pc), n) == Rolling(s, n);
  }

  lemma DropLifetimeKeepsInv(s: State, x: Pid, pc: Pc)
    requires Inv(s) && x < |s.procs| && s.procs[x].locked
    requires if s.procs[x].role.Observe? then pc.Answered? else s.procs[x].pc == Closing && pc == Unlocked
    ensures Inv(DropLifetime(s, x, pc))
  {
    var t := DropLifetime(s, x, pc);
    DropLifetimeKernel(s, x, pc);
    DropLifetimeSelf(s, x, pc);
    assert ProcInv(s, x);
    assert forall n :: Rolling(t, n) == Rolling(s, n);
    forall y | 0 <= y < |s.procs| && y != x ensures Undisturbed(s, t, y) {
      assert ProcInv(s, y);
      LocksExclude(s, x, y);
    }
    forall n ensures ConfigInv(t, n) { assert ConfigInv(s, n); }
    Assemble(s, t, x);
  }

  // ---------- Directories ----------

  /** MkdirAll: an existing directory keeps its owner, and nobody relies on a directory being absent. */
  lemma MkdirAllKeepsInv(s: State, k: Key)
    requires Inv(s)
    ensures Inv(s.(runtimeDirs := s.runtimeDirs + {k}))
  {
    var t := s.(runtimeDirs := s.runtimeDirs + {k});
    assert forall n :: Rolling(t, n) == Rolling(s, n);
    forall y | 0 <= y < |t.procs| ensures ProcInv(t, y) {
      assert ProcInv(s, y);
      UndisturbedKeeps(s, t, y);
    }
    forall n ensures ConfigInv(t, n) { assert ConfigInv(s, n); }
  }

  /** A supervisor that holds the lifetime lock of a key is the VM whose name owns the key's directory. */
  lemma OwnerOfHolder(s: State, y: Pid)
    requires Inv(s) && y < |s.procs| && RelyOwner(s.procs[y])
    ensures Owns(s, ProcKey(s.procs[y]), s.procs[y].name)
    ensures s.procs[y].role.Supervise? && s.procs[y].locked ==>
      s.procs[y].name in s.configs && !Rolling(s, s.procs[y].name)
  {
    assert ProcInv(s, y);
  }

  /** The process undoing or deleting VM `n` is the only one that relies on the directory of its key. */
  lemma SoleClaim(s: State, x: Pid, y: Pid)
    requires Inv(s) && x < |s.procs| && y < |s.procs| && y != x && RelyOwner(s.procs[y])
    requires (s.procs[x].role.Delete? && s.procs[x].pc == VmRemoved)
          || (s.procs[x].role.Create? && s.procs[x].pc == RollingBack)
    ensures ProcKey(s.procs[y]) != ProcKey(s.procs[x])
  {
    OwnerOfHolder(s, x);
    OwnerOfHolder(s, y);
    assert ProcInv(s, x) && ProcInv(s, y);
    RollingOf(s, x);
    LocksExclude(s, x, y);
  }

  lemma UnlinkKeepsInv(s: State, x: Pid)
    requires Inv(s) && x < |s.procs|
    requires (s.procs[x].role.Delete? && s.procs[x].pc == VmRemoved)
          || (s.procs[x].role.Create? && s.procs[x].pc == RollingBack)
    ensures Inv(UnlinkLock(s, x))
  {
    var t := UnlinkLock(s, x);
    assert ProcInv(s, x);
    assert forall n :: Rolling(t, n) == Rolling(s, n);
    forall y | 0 <= y < |s.procs| && y != x ensures Undisturbed(s, t, y) {
      assert ProcInv(s, y);
      if RelyOwner(s.procs[y]) { SoleClaim(s, x, y); }
    }
    forall n ensures ConfigInv(t, n) { assert ConfigInv(s, n); }
    Assemble(s, t, x);
  }

  lemma RemoveDirKernel(s: State, x: Pid, pc: Pc)
    requires Inv(s) && x < |s.procs| && RemoveDir(s, x, pc).Some?
    requires (s.procs[x].role.Delete? && s.procs[x].pc == VmRemoved && pc == Closing)
          || (s.procs[x].role.Create? && s.procs[x].pc == RollingBack && pc == RolledDir)
    ensures KernelInv(RemoveDir(s, x, pc).value)
  {
    assert ProcInv(s, x);
  }

  lemma RemoveDirSelf(s: State, x: Pid, pc: Pc)
    requires Inv(s) && x < |s.procs| && RemoveDir(s, x, pc).Some?
    requires (s.procs[x].role.Delete? && s.procs[x].pc == VmRemoved && pc == Closing)
          || (s.procs[x].role.Create? && s.procs[x].pc == RollingBack && pc == RolledDir)
    ensures ProcInv(RemoveDir(s, x, pc).value, x)
  {
    assert ProcInv(s, x);
    if s.procs[x].named { RollingOf(s, x); }
    assert forall n :: n != s.procs[x].name ==> Rolling(RemoveDir(s, x, pc).value, n) == Rolling(s, n);
  }

  lemma RemoveDirUndisturbs(s: State, x: Pid, pc: Pc, y: Pid)
    requires Inv(s) && x < |s.procs| && RemoveDir(s, x, pc).Some?
    requires (s.procs[x].role.Delete? && s.procs[x].pc == VmRemoved && pc == Closing)
          || (s.procs[x].role.Create? && s.procs[x].pc == RollingBack && pc == RolledDir)
    requires y < |s.procs| && y != x
    ensures Undisturbed(s, RemoveDir(s, x, pc).value, y)
  {
    assert ProcInv(s, x) && ProcInv(s, y);
    if RelyOwner(s.procs[y]) { SoleClaim(s, x, y); }
    RollingOf(s, x);
    assert Rolling(RemoveDir(s, x, pc).value, s.procs[y].name) == Rolling(s, s.procs[y].name);
  }

  /** A VM on disk with this key would be the one whose name lock `x` holds. */
  lemma RemoveDirConfigs(s: State, x: Pid, pc: Pc, n: Name)
    requires Inv(s) && x < |s.procs| && RemoveDir(s, x, pc).Some?
    requires (s.procs[x].role.Delete? && s.procs[x].pc == VmRemoved && pc == Closing)
          || (s.procs[x].role.Create? && s.procs[x].pc == RollingBack && pc == RolledDir)
    ensures ConfigInv(RemoveDir(s, x, pc).value, n)
  {
    assert ProcInv(s, x) && ConfigInv(s, n);
    OwnerOfHolder(s, x);
    RollingOf(s, x);
    assert Rolling(RemoveDir(s, x, pc).value, n) == Rolling(s, n);
  }

  lemma RemoveDirKeepsInv(s: State, x: Pid, pc: Pc)
    requires Inv(s) && x < |s.procs| && RemoveDir(s, x, pc).Some?
    requires (s.procs[x].role.Delete? && s.procs[x].pc == VmRemoved && pc == Closing)
          || (s.procs[x].role.Create? && s.procs[x].pc == RollingBack && pc == RolledDir)
    ensures Inv(RemoveDir(s, x, pc).value)
  {
    var t := RemoveDir(s, x, pc).value;
    RemoveDirKernel(s, x, pc);
    RemoveDirSelf(s, x, pc);
    forall y | 0 <= y < |s.procs| && y != x ensures Undisturbed(s, t, y) { RemoveDirUndisturbs(s, x, pc, y); }
    forall n ensures ConfigInv(t, n) { RemoveDirConfigs(s, x, pc, n); }
    Assemble(s, t, x);
  }

  // ---------- Configs ----------

  /** Save keeps the ID, and only the holder of the name lock saves. */
  lemma SaveKeepsInv(s: State, x: Pid, c: Config)
    requires Inv(s) && x < |s.procs| && s.procs[x].role.Edit? && s.procs[x].pc == Loaded
    requires s.procs[x].name in s.configs && s.configs[s.procs[x].name].id == c.id
    ensures Inv(s.(configs := s.configs[s.procs[x].name := c]))
  {
    var t := s.(configs := s.configs[s.procs[x].name := c]);
    assert ProcInv(s, x);
    assert forall n :: Rolling(t, n) == Rolling(s, n);
    forall y | 0 <= y < |s.procs| && y != x ensures Undisturbed(s, t, y) {
      assert ProcInv(s, y);
      LocksExclude(s, x, y);
    }
    forall n ensures ConfigInv(t, n) { assert ConfigInv(s, n); }
    Assemble(s, t, x);
  }

  /** A deleter that holds both locks excludes every supervisor of its VM. */
  lemma DeleterExcludes(s: State, x: Pid, y: Pid)
    requires Inv(s) && x < |s.procs| && y < |s.procs| && s.procs[x].role.Delete? && s.procs[x].pc == Inspected
    requires s.procs[y].role.Supervise? && s.procs[y].locked
    ensures ProcKey(s.procs[y]) != ProcKey(s.procs[x]) && s.procs[y].name != s.procs[x].name
  {
    assert ProcInv(s, x) && ProcInv(s, y);
  }

  lemma DeleteConfigKeepsInv(s: State, x: Pid, pc: Pc)
    requires Inv(s) && x < |s.procs| && s.procs[x].role.Delete? && s.procs[x].pc == Inspected
    requires pc == VmRemoved || pc == Closing
    ensures Inv(Put(s, x, s.procs[x].(pc := pc)).(configs := s.configs - {s.procs[x].name}))
  {
    var t := Put(s, x, s.procs[x].(pc := pc)).(configs := s.configs - {s.procs[x].name});
    assert ProcInv(s, x);
    assert forall n :: Rolling(t, n) == Rolling(s, n);
    forall y | 0 <= y < |s.procs| && y != x ensures Undisturbed(s, t, y) {
      assert ProcInv(s, y);
      LocksExclude(s, x, y);
      if s.procs[y].role.Supervise? && s.procs[y].locked { DeleterExcludes(s, x, y); }
    }
    forall n ensures ConfigInv(t, n) { assert ConfigInv(s, n); }
    Assemble(s, t, x);
  }

  /** The state after the runtime directory of a new VM was made. */
  function MadeState(s: State, x: Pid): State
    requires x < |s.procs|
  {
    var k := ProcKey(s.procs[x]);
    Put(s, x, s.procs[x].(pc := Made)).(runtimeDirs := s.runtimeDirs + {k}, owner := s.owner[k := s.procs[x].name])
  }

  lemma MadeSelf(s: State, x: Pid)
    requires Inv(s) && x < |s.procs| && s.procs[x].role.Create? && s.procs[x].pc == Checked
    ensures ProcInv(MadeState(s, x), x) && KernelInv(MadeState(s, x))
  {
    assert ProcInv(s, x);
  }

  lemma MadeKeepsInv(s: State, x: Pid)
    requires Inv(s) && x < |s.procs| && s.procs[x].role.Create? && s.procs[x].pc == Checked
    requires ProcKey(s.procs[x]) !in s.runtimeDirs
    ensures Inv(MadeState(s, x))
  {
    var t := MadeState(s, x);
    MadeSelf(s, x);
    assert forall n :: Rolling(t, n) == Rolling(s, n);
    forall y | 0 <= y < |s.procs| && y != x ensures Undisturbed(s, t, y) {
      if RelyOwner(s.procs[y]) { OwnerOfHolder(s, y); }
      assert ProcInv(s, y);
    }
    forall n ensures ConfigInv(t, n) { assert ConfigInv(s, n); }
    Assemble(s, t, x);
  }

  /** The state after the first write of a new config, which may fail before or after its rename. */
  function WriteState(s: State, x: Pid, pc: Pc, written: bool): State
    requires x < |s.procs| && s.procs[x].role.Create?
  {
    var p := s.procs[x];
    Put(s, x, p.(pc := pc)).(configs := if written then s.configs[p.name := p.role.created] else s.configs)
  }

  lemma WriteKernel(s: State, x: Pid, pc: Pc, written: bool)
    requires Inv(s) && x < |s.procs| && s.procs[x].role.Create? && s.procs[x].pc == Made
    requires (pc == Unlocked && written) || pc == RollingBack
    ensures KernelInv(WriteState(s, x, pc, written))
  {
    assert ProcInv(s, x);
  }

  lemma WriteSelf(s: State, x: Pid, pc: Pc, written: bool)
    requires Inv(s) && x < |s.procs| && s.procs[x].role.Create? && s.procs[x].pc == Made
    requires (pc == Unlocked && written) || pc == RollingBack
    ensures ProcInv(WriteState(s, x, pc, written), x)
  {
    assert ProcInv(s, x);
    if s.procs[x].named { RollingOf(s, x); }
    assert forall n :: n != s.procs[x].name ==> Rolling(WriteState(s, x, pc, written), n) == Rolling(s, n);
  }

  lemma WriteUndisturbed(s: State, x: Pid, pc: Pc, written: bool, y: Pid)
    requires Inv(s) && x < |s.procs| && s.procs[x].role.Create? && s.procs[x].pc == Made
    requires (pc == Unlocked && written) || pc == RollingBack
    requires y < |s.procs| && y != x
    ensures Undisturbed(s, WriteState(s, x, pc, written), y)
  {
    var t := WriteState(s, x, pc, written);
    assert ProcInv(s, x) && ProcInv(s, y);
    LocksExclude(s, x, y);
    assert s.procs[y].name != s.procs[x].name ==> Rolling(t, s.procs[y].name) == Rolling(s, s.procs[y].name);
  }

  lemma WriteConfigs(s: State, x: Pid, pc: Pc, written: bool, n: Name)
    requires Inv(s) && x < |s.procs| && s.procs[x].role.Create? && s.procs[x].pc == Made
    requires (pc == Unlocked && written) || pc == RollingBack
    ensures ConfigInv(WriteState(s, x, pc, written), n)
  {
    var t := WriteState(s, x, pc, written);
    assert ProcInv(s, x) && ConfigInv(s, n);
    RollingOf(s, x);
    assert n != s.procs[x].name ==> Rolling(t, n) == Rolling(s, n);
  }

  lemma WriteKeepsInv(s: State, x: Pid, pc: Pc, written: bool)
    requires Inv(s) && x < |s.procs| && s.procs[x].role.Create? && s.procs[x].pc == Made
    requires (pc == Unlocked && written) || pc == RollingBack
    ensures Inv(WriteState(s, x, pc, written))
  {
    var t := WriteState(s, x, pc, written);
    WriteKernel(s, x, pc, written);
    WriteSelf(s, x, pc, written);
    forall y | 0 <= y < |s.procs| && y != x ensures Undisturbed(s, t, y) { WriteUndisturbed(s, x, pc, written, y); }
    forall n ensures ConfigInv(t, n) { WriteConfigs(s, x, pc, written, n); }
    Assemble(s, t, x);
  }

  lemma UndoSelf(s: State, x: Pid)
    requires Inv(s) && x < |s.procs| && s.procs[x].role.Create? && s.procs[x].pc == RolledDir
    ensures ProcInv(CreateStep(s, x, Advance).value, x) && KernelInv(CreateStep(s, x, Advance).value)
  {
    assert ProcInv(s, x);
  }

  lemma UndoUndisturbed(s: State, x: Pid, y: Pid)
    requires Inv(s) && x < |s.procs| && s.procs[x].role.Create? && s.procs[x].pc == RolledDir
    requires y < |s.procs| && y != x
    ensures Undisturbed(s, CreateStep(s, x, Advance).value, y)
  {
    var t := CreateStep(s, x, Advance).value;
    assert ProcInv(s, x) && ProcInv(s, y);
    RollingOf(s, x);
    LocksExclude(s, x, y);
    assert s.procs[y].name != s.procs[x].name ==> Rolling(t, s.procs[y].name) == Rolling(s, s.procs[y].name);
  }

  lemma UndoKeepsInv(s: State, x: Pid)
    requires Inv(s) && x < |s.procs| && s.procs[x].role.Create? && s.procs[x].pc == RolledDir
    ensures Inv(CreateStep(s, x, Advance).value)
  {
    var t := CreateStep(s, x, Advance).value;
    UndoSelf(s, x);
    assert ProcInv(s, x);
    RollingOf(s, x);
    assert forall n :: n != s.procs[x].name ==> Rolling(t, n) == Rolling(s, n);
    forall y | 0 <= y < |s.procs| && y != x ensures Undisturbed(s, t, y) { UndoUndisturbed(s, x, y); }
    forall n ensures ConfigInv(t, n) { assert ConfigInv(s, n); }
    Assemble(s, t, x);
  }
}
