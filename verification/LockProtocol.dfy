/**
  The name-lock and lifetime-lock protocol: supervisors, deleters, config editors, creators and
  status/stop clients as interleaved processes (internal/store, internal/supervisor/supervisor.go,
  internal/lifecycle).

  A flock belongs to the inode that was opened, not to the path: `Delete` unlinks the lifetime lock
  file, so a process may end up locking an inode that no path names any more.  One step is one
  system call on the shared state, in the order the code makes them.  A supervisor whose backend has
  started carries the service of `ControlProtocol`, and a client reads what that service wrote.
 */
module LockProtocol {
  import opened Model
  import opened Wrappers
  import Lifecycle
  import ControlClient
  import C = ControlProtocol
  import S = SuperviseProtocol

  /** A VM name; names are only compared. */
  type Name = nat

  type Key = nat
  type Inode = nat
  type Pid = nat

  /** A durable config: its immutable ID, whether autostart is configured, and everything editable. */
  datatype Config = Config(id: Id, autostart: bool, content: int)

  datatype Role =
    | Supervise(expected: Id)
    | Delete
    | Edit
    | Create(created: Config)
    | Observe(observed: Id, call: Lifecycle.Call)

  /** Program points, shared between the roles. */
  datatype Pc =
    | Start
    | Named                      // the name lock is held
    | Loaded                     // and the config was read under it
    | Opened                     // and the lifetime lock file is open
    | Owned                      // and its flock is held
    | Reloaded                   // Supervise: the config was read again
    | Launching                  // Supervise: inside the backend's Start
    | Launched                   // Supervise: the run exists, the name lock is still held
    | Serving                    // Supervise: the name lock is released
    | Unwinding                  // Supervise: an error is returned before there is a run
    | Inspected                  // Delete: the caller's checks passed
    | VmRemoved                  // Delete: the VM directory is gone
    | Checked                    // Create: no VM of that name exists
    | Made                       // Create: the runtime directory was made
    | RollingBack                // Create: failed, created directories are removed
    | RolledDir                  // Create: the runtime directory is done with
    | Connected(peer: Pid, conn: nat)   // Observe: connected, to be accepted as connection `conn`
    | Probing                    // Observe: control failed, the lock decides
    | DirReady                   // Observe: the runtime directory was made sure of
    | Closing                    // about to release the lifetime lock
    | Unlocked                   // about to release the name lock, if still held
    | Answered(answer: Lifecycle.Answer)
    | End

  /**
    One process: `named` and `locked` say whether it holds its name lock and the flock on the inode
    `fd` it opened, `child` is the config its live child was started from, and `live` its run with the
    supervisor goroutine and the control server.
   */
  datatype Proc = Proc(
    role: Role, name: Name, pc: Pc, named: bool, locked: bool,
    config: Option<Config>, fd: Option<Inode>, child: Option<Config>, live: Option<C.State>)

  /** Disk, kernel locks and processes; `owner` records who made each runtime directory. */
  datatype State = State(
    configs: map<Name, Config>, runtimeDirs: set<Key>, lockFiles: map<Key, Inode>,
    nameLocks: map<Name, Pid>, flocks: map<Inode, Pid>, nextInode: nat,
    owner: map<Key, Name>, procs: seq<Proc>)

  const EMPTY: State := State(map[], {}, map[], map[], map[], 0, map[], [])

  /** RuntimeDir keeps only the first 12 digits of the ID. */
  function KeyOf(id: Id): Key {
    id.prefix
  }

  const NO_ID := Id(0, 0)

  /** The VM ID a process works on; for a deleter, the ID of the config it loaded. */
  function ProcId(p: Proc): Id {
    match p.role
    case Supervise(id) => id
    case Create(c) => c.id
    case Observe(id, _) => id
    case _ => if p.config.Some? then p.config.value.id else NO_ID
  }

  function ProcKey(p: Proc): Key { KeyOf(ProcId(p)) }

  datatype Action =
    | Advance                                   // the next call succeeds, or blocks
    | Fail                                      // the next call, or a check before it, fails
    | ChildDies                                 // inside Start; later it is an event of the run
    | Launch(state: RunState)                   // Start returned, readiness will find this state
    | Run(e: C.Event)                           // the run, its supervisor or its control server moves
    | SaveConfig(saved: Config, written: bool)  // an error can be reported after the rename
    | RemoveFails                               // RemoveAll failed after the config was gone
    | WriteFails                                // the first config write failed after its rename
    | Unlink                                    // RemoveAll unlinks the lifetime lock file
    | Connect(peer: Pid, conn: nat)
    | Receive(frames: nat, cmd: C.Command)      // of what was written to the connection, this much arrives
    | Exchange(control: Lifecycle.Control)      // no answer comes from a supervisor
    | Conclude(last: Lifecycle.LastExit, starting: bool)

  datatype Event = Spawn(role: Role, name: Name) | Step(pid: Pid, action: Action)

  // ---------- Shared pieces ----------

  function Put(s: State, x: Pid, p: Proc): State
    requires x < |s.procs|
  {
    s.(procs := s.procs[x := p])
  }

  function LockName(s: State, x: Pid): Option<State>
    requires x < |s.procs|
  {
    var p := s.procs[x];
    if p.name in s.nameLocks then None
    else Some(Put(s, x, p.(pc := Named, named := true)).(nameLocks := s.nameLocks[p.name := x]))
  }

  function DropName(s: State, x: Pid, pc: Pc): State
    requires x < |s.procs|
  {
    Put(s, x, s.procs[x].(pc := pc, named := false)).(nameLocks := s.nameLocks - {s.procs[x].name})
  }

  /** Release of a flock, closing the descriptor. */
  function DropLifetime(s: State, x: Pid, pc: Pc): State
    requires x < |s.procs|
  {
    var p := s.procs[x];
    Put(s, x, p.(pc := pc, locked := false, fd := None))
      .(flocks := if p.fd.Some? then s.flocks - {p.fd.value} else s.flocks)
  }

  /** Open or create the lifetime lock file of a key whose runtime directory exists. */
  function OpenLock(s: State, x: Pid): State
    requires x < |s.procs|
  {
    var p, k := s.procs[x], ProcKey(s.procs[x]);
    if k in s.lockFiles then Put(s, x, p.(pc := Opened, fd := Some(s.lockFiles[k])))
    else Put(s, x, p.(pc := Opened, fd := Some(s.nextInode)))
           .(lockFiles := s.lockFiles[k := s.nextInode], nextInode := s.nextInode + 1)
  }

  /** The nonblocking flock on the opened inode; `busy` is where a refused process goes. */
  function TryFlock(s: State, x: Pid, busy: Pc): State
    requires x < |s.procs|
  {
    var p := s.procs[x];
    if p.fd.Some? && p.fd.value !in s.flocks then
      Put(s, x, p.(pc := Owned, locked := true)).(flocks := s.flocks[p.fd.value := x])
    else Put(s, x, p.(pc := busy, fd := None))
  }

  /** RemoveAll of the runtime directory: one unlink of the lock file at a time, then the directory. */
  function UnlinkLock(s: State, x: Pid): State
    requires x < |s.procs|
  {
    s.(lockFiles := s.lockFiles - {ProcKey(s.procs[x])})
  }

  function RemoveDir(s: State, x: Pid, pc: Pc): Option<State>
    requires x < |s.procs|
  {
    var k := ProcKey(s.procs[x]);
    if k in s.lockFiles then None
    else Some(Put(s, x, s.procs[x].(pc := pc)).(runtimeDirs := s.runtimeDirs - {k}))
  }

  /** Steps every process that takes the name lock shares: taking it, and giving both locks back. */
  function CommonStep(s: State, x: Pid, act: Action): Option<State>
    requires x < |s.procs|
  {
    var p := s.procs[x];
    match p.pc
    case Start =>
      if act == Advance then LockName(s, x) else if act == Fail then Some(Put(s, x, p.(pc := End))) else None
    case Closing => if act == Advance then Some(DropLifetime(s, x, Unlocked)) else None
    case Unlocked =>
      if act != Advance then None
      else if p.named then Some(DropName(s, x, End)) else Some(Put(s, x, p.(pc := End)))
    case _ => None
  }

  // ---------- Supervise ----------

  /** Up to the moment the lifetime lock is owned; every failure releases the name lock only. */
  function AcquireStep(s: State, x: Pid, act: Action): Option<State>
    requires x < |s.procs|
  {
    var p := s.procs[x];
    if act == Fail then Some(Put(s, x, p.(pc := Unlocked, fd := None)))
    else if act != Advance then None
    else match p.pc
    case Named =>
      if p.name in s.configs && (if p.role.Supervise? then s.configs[p.name].id == p.role.expected
                                 else !s.configs[p.name].autostart) then
        Some(Put(s, x, p.(pc := Loaded, config := Some(s.configs[p.name]))))
      else Some(Put(s, x, p.(pc := Unlocked)))
    case Loaded => Some(OpenLock(s.(runtimeDirs := s.runtimeDirs + {ProcKey(p)}), x))
    case Opened => Some(TryFlock(s, x, Unlocked))
    case _ => None
  }

  /** The service of a run that was just created; its child may be gone already. */
  function NewService(id: Id, state: RunState, exited: bool): C.State
    requires state == Running || state == Paused
  {
    var service := C.Initial(id, state);
    service.(sup := service.sup.(run := service.sup.run.(childExited := exited)))
  }

  /** From the owned lifetime lock to the creation of the run, and the error returns before it. */
  function LaunchMove(s: State, p: Proc, act: Action): Option<Proc> {
    match p.pc
    case Owned =>
      if act == Advance && p.name in s.configs && s.configs[p.name].id == ProcId(p) then
        Some(p.(pc := Reloaded, config := Some(s.configs[p.name])))
      else if act == Advance || act == Fail then Some(p.(pc := Unwinding)) else None
    case Reloaded =>
      if act == Advance then Some(p.(pc := Launching, child := p.config))
      else if act == Fail then Some(p.(pc := Unwinding)) else None
    case Launching =>
      if act == ChildDies then Some(p.(child := None))
      else if act.Launch? && (act.state == Running || act.state == Paused) then
        Some(p.(pc := Launched, live := Some(NewService(ProcId(p), act.state, p.child.None?))))
      // A failed Start has stopped and reaped the child it had launched.
      else if act == Fail && p.child.None? then Some(p.(pc := Unwinding)) else None
    case Unwinding => if act == Advance then Some(p.(pc := Closing)) else None
    case _ => None
  }

  /**
    A step of the run, of the goroutine of `Supervise` or of the control server.  Startup does not
    end before the name lock was released.  The child lives until the run has reaped it.
   */
  function RunMove(p: Proc, e: C.Event): Option<Proc>
    requires p.live.Some?
  {
    var l := p.live.value;
    if p.pc == Launched && l.sup.pc == S.StartingUp && e == C.World(S.Supervisor(S.Go)) then None
    else match C.Next(l, e)
      case None => None
      case Some(m) => Some(p.(live := Some(m), child := if m.sup.run.childExited then None else p.child))
  }

  /** With a run: its steps, the release of the name lock, and the return that ends the supervisor. */
  function ServeStep(s: State, x: Pid, act: Action): Option<State>
    requires x < |s.procs| && s.procs[x].live.Some?
  {
    var p := s.procs[x];
    if act.Run? then
      (match RunMove(p, act.e)
       case None => None
       case Some(q) => Some(Put(s, x, q)))
    else if act != Advance then None
    else if p.live.value.sup.pc == S.Releasing then Some(Put(s, x, p.(pc := Closing)))
    else if p.pc == Launched && p.live.value.sup.pc == S.StartingUp then Some(DropName(s, x, Serving))
    else None
  }

  function SuperviseStep(s: State, x: Pid, act: Action): Option<State>
    requires x < |s.procs|
  {
    var p := s.procs[x];
    if p.pc == Launched || p.pc == Serving then
      if p.live.Some? then ServeStep(s, x, act) else None
    else match LaunchMove(s, p, act)
      case None => None
      case Some(q) => Some(Put(s, x, q))
  }

  // ---------- Delete, edit, create ----------

  function DeleteStep(s: State, x: Pid, act: Action): Option<State>
    requires x < |s.procs|
  {
    var p := s.procs[x];
    match p.pc
    case Owned =>
      if act == Advance then Some(Put(s, x, p.(pc := Inspected)))
      else if act == Fail then Some(Put(s, x, p.(pc := Closing))) else None
    case Inspected =>
      if act == Advance then Some(Put(s, x, p.(pc := VmRemoved)).(configs := s.configs - {p.name}))
      else if act == RemoveFails then Some(Put(s, x, p.(pc := Closing)).(configs := s.configs - {p.name}))
      else if act == Fail then Some(Put(s, x, p.(pc := Closing))) else None
    case VmRemoved =>
      if act == Unlink then Some(UnlinkLock(s, x))
      else if act == Advance then RemoveDir(s, x, Closing)
      else if act == Fail then Some(Put(s, x, p.(pc := Closing))) else None
    case _ => None
  }

  /** Save refuses a config whose ID differs from the one on disk. */
  function EditStep(s: State, x: Pid, act: Action): Option<State>
    requires x < |s.procs|
  {
    var p := s.procs[x];
    match p.pc
    case Named =>
      if act == Advance && p.name in s.configs then
        Some(Put(s, x, p.(pc := Loaded, config := Some(s.configs[p.name]))))
      else if act == Advance || act == Fail then Some(Put(s, x, p.(pc := Unlocked))) else None
    case Loaded =>
      if act.SaveConfig? && p.name in s.configs && s.configs[p.name].id == act.saved.id then
        Some(if act.written then s.(configs := s.configs[p.name := act.saved]) else s)
      else if act == Advance || act == Fail then Some(Put(s, x, p.(pc := Unlocked))) else None
    case _ => None
  }

  function CreateStep(s: State, x: Pid, act: Action): Option<State>
    requires x < |s.procs| && s.procs[x].role.Create?
  {
    var p, k := s.procs[x], ProcKey(s.procs[x]);
    match p.pc
    case Named =>
      if act == Advance && p.name !in s.configs then Some(Put(s, x, p.(pc := Checked)))
      else if act == Advance || act == Fail then Some(Put(s, x, p.(pc := Unlocked))) else None
    case Checked =>
      // Mkdir, not MkdirAll: an existing runtime directory fails the creation.
      if act == Advance && k !in s.runtimeDirs then
        Some(Put(s, x, p.(pc := Made)).(runtimeDirs := s.runtimeDirs + {k}, owner := s.owner[k := p.name]))
      else if act == Advance || act == Fail then Some(Put(s, x, p.(pc := Unlocked))) else None
    case Made =>
      if act == Advance then
        Some(Put(s, x, p.(pc := Unlocked)).(configs := s.configs[p.name := p.role.created]))
      else if act == WriteFails then
        Some(Put(s, x, p.(pc := RollingBack)).(configs := s.configs[p.name := p.role.created]))
      else if act == Fail then Some(Put(s, x, p.(pc := RollingBack))) else None
    case RollingBack =>
      if act == Unlink then Some(UnlinkLock(s, x))
      else if act == Advance then RemoveDir(s, x, RolledDir)
      else if act == Fail then Some(Put(s, x, p.(pc := RolledDir))) else None
    case RolledDir =>
      if act == Advance then Some(Put(s, x, p.(pc := Unlocked)).(configs := s.configs - {p.name})) else None
    case _ => None
  }

  // ---------- Observe: stop, status and the deletion check ----------

  /** Whether a call sends this request. */
  predicate Asks(call: Lifecycle.Call, cmd: C.Command) {
    cmd.Stop? <==> call == Lifecycle.Stop
  }

  /** How an exchange ended for `lifecycle`, from the client's result. */
  function ControlOf(outcome: ControlClient.Outcome): Lifecycle.Control {
    match outcome
    case Ok(status) => Lifecycle.Accepted(status)
    case Err(Reported(code)) => Lifecycle.Refused(code)
    case Err(BrokenStream) => Lifecycle.Unavailable
    case Err(_) => Lifecycle.Garbled
  }

  /** A connection is accepted after it was made: it is going to be a later one of that process's service. */
  predicate CanConnect(s: State, peer: Pid, conn: nat) {
    peer < |s.procs| && (s.procs[peer].live.Some? ==> |s.procs[peer].live.value.conns| <= conn)
  }

  /** The request that reached the handler, if one did, is the one that was sent. */
  predicate CanReceive(s: State, peer: Pid, conn: nat, frames: nat, cmd: C.Command) {
    && peer < |s.procs| && s.procs[peer].live.Some? && conn < |s.procs[peer].live.value.conns|
    && (var c := s.procs[peer].live.value.conns[conn];
        frames <= |c.written| && (c.cmd.None? || c.cmd == Some(cmd)))
  }

  function Received(s: State, peer: Pid, conn: nat, frames: nat, cmd: C.Command, id: Id): Lifecycle.Control
    requires CanReceive(s, peer, conn, frames, cmd)
  {
    ControlOf(ControlClient.ClientFrom(s.procs[peer].live.value.conns[conn].written[..frames], id, cmd))
  }

  /** Where a client goes after its control exchange. */
  function Decided(p: Proc, control: Lifecycle.Control): Proc
    requires p.role.Observe?
  {
    match Lifecycle.AfterControl(p.role.call, control)
    case Answered(a) => p.(pc := Answered(a))
    case TryLock => p.(pc := Probing)
  }

  /** The control exchange of a client. */
  function ExchangeMove(s: State, p: Proc, act: Action): Option<Proc>
    requires p.role.Observe? && (p.pc == Start || p.pc.Connected?)
  {
    if act.Exchange? && (act.control == Lifecycle.Unavailable || act.control == Lifecycle.Garbled) then
      Some(Decided(p, act.control))
    else if p.pc == Start && act.Connect? && CanConnect(s, act.peer, act.conn) then
      Some(p.(pc := Connected(act.peer, act.conn)))
    else if p.pc.Connected? && act.Receive? && Asks(p.role.call, act.cmd)
         && CanReceive(s, p.pc.peer, p.pc.conn, act.frames, act.cmd) then
      Some(Decided(p, Received(s, p.pc.peer, p.pc.conn, act.frames, act.cmd, p.role.observed)))
    else None
  }

  /** The moves of a client that touch nothing shared. */
  function ObserveMove(s: State, p: Proc, act: Action): Option<Proc>
    requires p.role.Observe?
  {
    if act == Fail && p.pc != Owned && !p.pc.Answered? then Some(p.(pc := Answered(Lifecycle.Error), fd := None))
    else if p.pc == Start || p.pc.Connected? then ExchangeMove(s, p, act)
    // The directory can be gone again: nothing locks it for a client.
    else if p.pc == DirReady && act == Advance && ProcKey(p) !in s.runtimeDirs then
      Some(p.(pc := Answered(Lifecycle.Error)))
    else None
  }

  function ObserveStep(s: State, x: Pid, act: Action): Option<State>
    requires x < |s.procs| && s.procs[x].role.Observe?
  {
    var p, k := s.procs[x], ProcKey(s.procs[x]);
    if p.pc == Probing && act == Advance then
      Some(Put(s, x, p.(pc := DirReady)).(runtimeDirs := s.runtimeDirs + {k}))
    else if p.pc == DirReady && act == Advance && k in s.runtimeDirs then
      Some(OpenLock(s, x))
    else if p.pc == Opened && act.Conclude? then
      Some(TryFlock(s, x, Answered(Lifecycle.AfterBusy(p.role.call, act.starting))))
    else if p.pc == Owned && act.Conclude? then
      Some(DropLifetime(s, x, Answered(Lifecycle.AfterLock(p.role.call, act.last))))
    else if p.pc == Owned && act == Fail then
      Some(DropLifetime(s, x, Answered(Lifecycle.Error)))
    else match ObserveMove(s, p, act)
      case None => None
      case Some(q) => Some(Put(s, x, q))
  }

  /** The successor of `s`, or None when the step is blocked or does not exist. */
  function Next(s: State, e: Event): Option<State> {
    match e
    case Spawn(role, name) =>
      Some(s.(procs := s.procs + [Proc(role, name, Start, false, false, None, None, None, None)]))
    case Step(x, act) =>
      if x >= |s.procs| then None else
      var p := s.procs[x];
      match p.role
      case Observe(_, _) => ObserveStep(s, x, act)
      case Supervise(_) =>
        if p.pc == Start || p.pc.Closing? || p.pc.Unlocked? then CommonStep(s, x, act)
        else if p.pc == Named || p.pc == Loaded || p.pc == Opened then AcquireStep(s, x, act)
        else SuperviseStep(s, x, act)
      case Delete =>
        if p.pc == Start || p.pc.Closing? || p.pc.Unlocked? then CommonStep(s, x, act)
        else if p.pc == Named || p.pc == Loaded || p.pc == Opened then AcquireStep(s, x, act)
        else DeleteStep(s, x, act)
      case Edit =>
        if p.pc == Start || p.pc.Closing? || p.pc.Unlocked? then CommonStep(s, x, act) else EditStep(s, x, act)
      case Create(_) =>
        if p.pc == Start || p.pc.Closing? || p.pc.Unlocked? then CommonStep(s, x, act) else CreateStep(s, x, act)
  }
}
