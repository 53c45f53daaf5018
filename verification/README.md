# Verified model of qemu-manage

A Dafny model of the parts of qemu-manage that are hard to get right, with proofs about every run,
every input and every point of failure. `dafny verify dfyconfig.toml` checks all of it.

## What is modelled

**The stop protocol of one supervised run** (`StopProtocol`, `StopSafety`, `StopReports`,
`StopLiveness`, `SupervisedRun`). Any number of graceful and forced stop calls, one goroutine per
graceful attempt, the force goroutine, the exit waiter and racing status queries share a mutex and
close-once channels. `StopProtocol.Next` has one step per critical section, channel wait and
`select` branch of `internal/supervisor/run.go`; a channel is the number of times it was closed. The
critical sections are functions on the guarded fields, and `SupervisedRun.Run` is the class whose
methods carry them out in place: each is taken by a goroutine at its program point and is a step of
the protocol. `StopReports` adds the milestones each call passes to its caller. Safety is an
inductive invariant over all reachable states; progress is a measure that every step but an arrival
decreases, together with the absence of deadlock.

**The child process behind it** (`InstanceProtocol`). The goroutine that reaps QEMU, Start installing
its QMP client, and any number of racing ForceStop calls of `internal/qemu/instance.go`. It proves
the backend contract that the stop protocol relies on: ForceStop returns only after the child has
been reaped, and the exit is published exactly once.

**The goroutine of Supervise** (`SuperviseProtocol`). From the creation of the run to the release of
the lifetime lock: the end of startup, `waitForTermination` with its own graceful stop and force,
the shutdown of the control server, and the deferred force of an error return. Its stop calls are
calls of the stop protocol among those of others.

**The control socket** (`ControlProtocol`, `ControlClient`). The server accepts connections, one
handler each; a handler's stop or status request is a call of the stop protocol, and its milestones
and its result are what the handler writes. The shutdown closes the listener, waits for the accept
loop, sweeps away idle connections and waits for the handlers, while stop requests are still being
answered. The client reads milestones up to one terminal frame.

**The two lock levels** (`LockProtocol`, `LockMoves`, `LockInvariant`, `LockSteps`, `LockSafety`,
`LockOrphan`, `Lifecycle`). Supervisors, deleters, config editors, creators and
stop/status/deletion-check clients interleave over name locks, lifetime lock files, the inodes
behind them, runtime directories, the configs on disk and live children. A supervisor whose backend
has started carries the whole service of `ControlProtocol`, so its child dies when that run says so,
its lock is released when that supervisor goroutine returns, and a client reads what that service
wrote to it. Flocks belong to inodes, paths can be unlinked and recreated, and a client takes no
name lock. `Lifecycle` holds the decisions of `internal/lifecycle` as functions.

**The rotating serial log** (`SerialLogSpec`, `SerialLog`). The specification is one line: the files
are a window on the end of the byte stream, cut into blocks. The class refines it in place on the
files, with failure at any I/O step, and `copySerialLog` on top of it.

**The launchd transactions** (`LaunchdSpec`, `Launchd`). Enable, Disable with its rollback, and Start
over two domains (plist bytes, loaded flag) and the durable scope. Any inspection or command may
fail; a failed Save may have written, and a failed login install may leave a partial file. Somebody
else may change the plist files while launchctl or plutil runs, unless a contract says `quiet`.

**Parsers, printers and stream protocols.**
`PlistScan`, `PlistTrees` and `PlistRender`: the two streaming property-list scans against lookup in
the tree and against the rendered document.
`QgaSpec` and `Qga`: framing, resynchronisation and reply matching of the guest agent.
`Qmp`: command IDs, reply matching and event counters of one QMP connection.
`JsonSurrogates`: the surrogate escape scanner against the strings of a text.
`ShellWords`: the quoting of showcmd against a POSIX shell's word splitting.
`DriveItems`: comma splitting against comma doubling.

## What the code does where one might expect otherwise

- RequestShutdown can be called after a force has started, although the run is then already
  stopping: an attempt that exists but has not run yet still makes its call, under a cancelled
  context, and the force waits for it. `StopSafety.RequestCanFollowForce` is a run that does it and
  `StopSafety.RequestFollowsForceExactly` says exactly when.
- Disable's shortcut does not look at loaded flags (`LaunchdSpec.DisableClearsExactly`,
  `Launchd.DisableOverlooksLoadedJob`), and its rollback writes a plist for a job that was loaded
  without one (`LaunchdSpec.Restored`).
- A nested array ends the scan of ProgramArguments early (`PlistTrees.OneArrayExactly`).
- A program path or VM name with a character that XML cannot contain is not read back from the
  rendered plist (`PlistRender.ScansReadBackRender`).
- A lone high surrogate escape with fewer than six bytes of text behind it is accepted
  (`JsonSurrogates.RejectsExactly`).
- An item that starts with a comma is printed ambiguously (`DriveItems.RoundTripExactly`).
- The two waits of the guest agent treat malformed stale frames differently (`QgaSpec.StaleFrames`).
- A client that opened a lifetime lock file before a deletion unlinked it can hold the flock of an
  unlinked inode (`LockOrphan.ClientMayLockOrphan`); its answer is still true of an instant within
  its call (`LockSafety.OfflineAnswersAreTrue`).

## Model

| member | source | states |
|---|---|---|
| `StopProtocol.EnterGracefulKeepsInv` | internal/supervisor/run.go:98-118 | The entry section of a graceful stop (join the attempt, wait for the force, or create one attempt and its goroutine) keeps the run invariant and never undoes an earlier fact |
| `StopProtocol.EnterForceKeepsInv` | internal/supervisor/run.go:218-252 | Starting a force once, cancelling the graceful deadline, keeps the run invariant; a second force call only waits |
| `StopProtocol.StopCallKeepsInv` | internal/supervisor/run.go:91-155 | Every step and every select branch of a stop call keeps the run invariant |
| `StopProtocol.StoreStatusKeepsInv` | internal/supervisor/run.go:64-83 | Storing a status answer keeps the invariant: a stop that began meanwhile is not overwritten |
| `StopProtocol.QueryKeepsInv` | internal/supervisor/run.go:64-83 | Every step of a status query, and of the wait for a completed force, keeps the run invariant |
| `StopProtocol.SettleRequestKeepsInv` | internal/supervisor/run.go:161-190 | The section after RequestShutdown closes the request channel once and clears `graceful` only for a request that failed without a force |
| `StopProtocol.SettleForcedKeepsInv` | internal/supervisor/run.go:164-173 | A request that a force overtook publishes the result of that force, once, and keeps the run invariant |
| `StopProtocol.SettleKeepsInv` | internal/supervisor/run.go:212-215 | Publishing the final error of an attempt closes its channel once and keeps the run invariant |
| `StopProtocol.WorkerKeepsInv` | internal/supervisor/run.go:157-216 | Every step of the goroutine of an attempt keeps the run invariant, whichever of exit, deadline and force comes first |
| `StopProtocol.ForcerKeepsInv` | internal/supervisor/run.go:232-250 | The force goroutine publishes its result after the exit was published and keeps the run invariant |
| `StopProtocol.EnvironmentKeepsInv` | internal/supervisor/run.go:192-242 | Exit of the child, ForceStop returning and a deadline firing keep the run invariant |
| `StopProtocol.WaiterKeepsInv` | internal/supervisor/run.go:45-62 | The exit waiter publishes the exit after it and keeps the run invariant |
| `StopProtocol.CallKeepsInv` | internal/supervisor/run.go:91-155 | A step of a call together with what it reports keeps the run invariant; reports and returns are final |
| `StopProtocol.StepKeepsInv` | internal/supervisor/run.go:45-279 | Inductive invariant of the whole protocol over any number of callers: stopping implies state stopping, forceStarted implies stopping and intentional, forceDone closed implies done closed, no channel closed twice, waits only on what exists |
| `StopSafety.RunKeepsInv` | internal/supervisor/run.go:45-279 | The invariant holds after every run, and what a state established (force started, attempts, closed channels, accepted verdicts) stays established |
| `StopSafety.NilStopMeansExited` | internal/supervisor/run.go:91-264 | A stop call that returned nil did so with done closed and the child gone, also when it joined another attempt or was overtaken by a force |
| `StopSafety.StateFollowsStop` | internal/supervisor/run.go:64-83 | In every reachable state: stopping implies the stored state is stopping, forceStarted implies stopping and intentional, a closed forceDone implies a closed done |
| `StopSafety.ChannelsCloseOnce` | internal/supervisor/run.go:157-252 | In every reachable state no request, attempt, force or exit channel was closed twice, forceDone only after done |
| `StopSafety.StatusCannotRevert` | internal/supervisor/run.go:64-83 | Once a stop was accepted or forced, a query that asked the backend before it still answers and stores "stopping" |
| `StopSafety.ForceIssuedStep` | internal/supervisor/run.go:218-250 | ForceStop is issued by one transition of one goroutine, which is never undone |
| `StopSafety.ForceStopAtMostOnce` | internal/supervisor/run.go:218-252 | In every run, ForceStop is invoked at most once |
| `StopSafety.BackendCallsExclude` | internal/supervisor/run.go:157-190 | At most one RequestShutdown is in flight, and none while ForceStop is |
| `StopSafety.NoRequestAfterAccepted` | internal/supervisor/run.go:164-190 | After an accepted request no RequestShutdown is issued in any continuation |
| `StopSafety.NoAttemptAfterForce` | internal/supervisor/run.go:98-118 | After a force has started no new attempt is created in any continuation |
| `StopSafety.RequestCanFollowForce` | internal/supervisor/run.go:157-164 | Concrete run in which RequestShutdown is called after a force has started |
| `StopSafety.RequestFollowsForceExactly` | internal/supervisor/run.go:218-232 | A force that starts in a state is followed by a RequestShutdown in some continuation if and only if that state holds an attempt whose goroutine has not run yet |
| `StopSafety.LateRequestIsCancelled` | internal/supervisor/run.go:218-240 | Such a late request runs under a context that is already done, while the force still waits for it |
| `StopSafety.AcceptedVerdictIsFinal` | internal/supervisor/run.go:174-215 | After an accepted attempt ended, `graceful` is never cleared: later graceful stops that no force overtakes wait for that attempt and return its error |
| `StopLiveness.StepDecreases` | internal/supervisor/run.go:50-264 | Every step other than the arrival of a call decreases one measure, whatever the branch |
| `StopLiveness.NeverDeadlocks` | internal/supervisor/run.go:120-264 | A reachable state in which some call or goroutine waits has an enabled step, given that backend calls return and ForceStop leads to an exit |
| `StopLiveness.AllWaitsReleased` | internal/supervisor/run.go:120-264 | A run without arrivals that can go no further has released every caller and goroutine that is owed an answer |
| `StopLiveness.MeasureBounds` | internal/supervisor/run.go:120-264 | Between arrivals a run has at most as many steps as the measure says |
| `StopReports.StepKeepsReports` | internal/supervisor/run.go:91-155 | Every step keeps, for every call, that what it has reported fits its program point |
| `StopReports.MilestonesOfCall` | internal/supervisor/run.go:91-155 | In every run a stop call reports acknowledged at most once and then forcing at most once, a forced call exactly forcing, and acknowledged only once the run is stopping |
| `StopReports.ForcedReturnMeansExited` | internal/supervisor/run.go:218-264 | A call under a background context that has reported forcing returns, with any error, only after forceDone and done were closed and the child is gone |
| `SupervisedRun.Run.constructor` | internal/supervisor/run.go:45-62 | A new run satisfies the invariant of the protocol, with nothing but the exit waiter around it |
| `SupervisedRun.Run.EnterGraceful` | internal/supervisor/run.go:98-118 | In place: the section is a step of the protocol that keeps its invariant, and an attempt is created only when no request is pending and none was ever accepted |
| `SupervisedRun.Run.EnterForce` | internal/supervisor/run.go:218-232 | In place: likewise; the force starts exactly when none had, and the attempt it waits for has a context that is done |
| `SupervisedRun.Run.SettleRequest` | internal/supervisor/run.go:161-190 | In place: likewise; the request channel is closed exactly once, and an accepted request without a force stays the current attempt of a stopping run |
| `SupervisedRun.Run.SettleAttempt` | internal/supervisor/run.go:166-173 | In place: likewise; the channel of an attempt is closed exactly once, and a nil error is published only after the exit |
| `SupervisedRun.Run.PublishExit` | internal/supervisor/run.go:50-60 | In place: likewise; done is closed exactly once and only after the child has exited |
| `SupervisedRun.Run.PublishForce` | internal/supervisor/run.go:241-246 | In place: likewise; whatever ForceStop returned, forceDone is closed exactly once, after done, with no request in flight |
| `SupervisedRun.Run.StoreStatus` | internal/supervisor/run.go:74-82 | In place: likewise; the answer is the stored state, stopping once a stop began |
| `SuperviseProtocol.SupervisorKeepsInv` | internal/supervisor/supervisor.go:351-368 | Every step of the goroutine of Supervise with a run, its own stop and force calls and each error return included, keeps the invariant |
| `SuperviseProtocol.StepKeepsInv` | internal/supervisor/supervisor.go:262-349 | Inductive invariant of the supervisor goroutine over the stop protocol and any other callers |
| `SuperviseProtocol.ReleaseMeansExited` | internal/supervisor/supervisor.go:110-145 | On every way out, waitForTermination or the deferred force of an error return, whatever the force returned: when only the release of the lifetime lock is left, done is closed and the child is gone |
| `SuperviseProtocol.ServerStopMeansExited` | internal/supervisor/supervisor.go:337-343 | The control server is stopped only after the exit was published |
| `SuperviseProtocol.StepDecreases` | internal/supervisor/supervisor.go:351-368 | Every step but the arrival of another caller decreases one measure, the calls the supervisor has still to make included |
| `SuperviseProtocol.NeverStuck` | internal/supervisor/supervisor.go:351-368 | Past its select, or on an error return, the supervisor always has an owed step before the release |
| `SuperviseProtocol.ReleaseIsReached` | internal/supervisor/supervisor.go:110-145 | From there every run without new callers is bounded by the measure, and one that can go no further has reached the release |
| `InstanceProtocol.ReaperKeepsInv` | internal/qemu/instance.go:295-314 | The reaping goroutine stores the exit, closes the client and done in one section, then sends and closes: each keeps the invariant of the instance |
| `InstanceProtocol.StarterKeepsInv` | internal/qemu/instance.go:109-176 | Installing the QMP client under the lock, or undoing a failed start, keeps the invariant |
| `InstanceProtocol.CallerKeepsInv` | internal/qemu/instance.go:399-445 | Every step of every racing ForceStop call keeps the invariant |
| `InstanceProtocol.StepKeepsInv` | internal/qemu/instance.go:295-445 | Inductive invariant of the child, its reaper, Start and any number of ForceStop calls |
| `InstanceProtocol.ForceStopMeansReaped` | internal/backend/backend.go:67-76 | In every run a ForceStop call returns, with or without error, only after the child has been reaped |
| `InstanceProtocol.ForceStopCallsAgree` | internal/qemu/instance.go:399-406 | All ForceStop calls return the same error, and one other than nil only after a kill that failed |
| `InstanceProtocol.ClosedOnce` | internal/qemu/instance.go:295-406 | The child is killed at most once, and done, forceDone and the exit channel are closed at most once |
| `InstanceProtocol.ExitPublishedOnce` | internal/backend/backend.go:59-62 | Wait's channel carries the child's own exit exactly once before it is closed, and nothing before the child has exited |
| `InstanceProtocol.NoClientOutlivesChild` | internal/qemu/instance.go:120-131 | Whichever of the reaper and Start comes second, the QMP client of a reaped child ends closed |
| `InstanceProtocol.FailedStartLeavesNoChild` | internal/qemu/instance.go:101-107 | A Start that fails after the fork returns only when its child has been reaped |
| `InstanceProtocol.NeverStuck` | internal/qemu/instance.go:399-445 | While a ForceStop call or a failing Start has not returned some step is possible, unless a failed kill has left the child alive |
| `InstanceProtocol.StepDecreases` | internal/qemu/instance.go:295-445 | Every step but an arrival and the receipt of the exit decreases one measure |
| `InstanceProtocol.AllWaitsEnd` | internal/qemu/instance.go:399-445 | From every reachable state the process alone reaches, within the measure, a state in which every wait has ended or a failed kill left the child alive |
| `ControlProtocol.HandlerKeepsInv` | internal/supervisor/control_server.go:67-115 | Every step of a connection handler, from the checks of the request over its call of the run to its deferred calls, keeps the invariant of the connection |
| `ControlProtocol.StepKeepsInv` | internal/supervisor/control_server.go:17-115 | Inductive invariant of the run, its supervisor, the server with its shutdown, and any number of connections, tracked after the listener closed included |
| `ControlProtocol.FramesAreWellFormed` | internal/supervisor/protocol.go:30-33 | In every run a connection has received milestones only on a stop, acknowledged before forcing and forcing alone on a forced stop, then at most one terminal frame, never "not running" |
| `ControlProtocol.SuccessMeansExited` | internal/supervisor/control_server.go:96-113 | A success frame on a stop connection is the last frame and the answer of a stop call that returned nil, so done is closed and the child is gone |
| `ControlProtocol.StatusIsLive` | internal/supervisor/control_server.go:88-95 | A status answer is never "stopped": it is running, paused or stopping |
| `ControlProtocol.StopClientsAreAnswered` | internal/supervisor/control_server.go:29-46 | When the server has stopped, every handler has left, and a stop connection marked while open has received exactly the milestones of its call and then the answer of that call, unless a write to the peer failed |
| `ControlProtocol.ReleaseMeansQuiet` | internal/supervisor/supervisor.go:337-349 | When the supervisor is about to release its lifetime lock no handler is at work and the child is gone |
| `ControlProtocol.StepDecreases` | internal/supervisor/control_server.go:29-115 | Every step of the run, the supervisor, the server or a handler decreases one measure; only an accepted connection does not |
| `ControlProtocol.NeverStuck` | internal/supervisor/control_server.go:29-46 | Past the supervisor's select some owed step is enabled until the release: after the sweep no handler waits for its peer |
| `ControlProtocol.ShutdownEnds` | internal/supervisor/control_server.go:29-46 | From there every run without new connections is bounded by the measure, and one that can go no further has all handlers gone and the release reached |
| `ControlClient.ControlWithProgress` | internal/supervisor/client.go:64-84 | The loop passes milestones on in order and returns the verdict of the first other frame |
| `ControlClient.ClientReadsMilestones` | internal/supervisor/client.go:64-81 | Milestones are read through and never taken for the answer |
| `ControlClient.StopSuccessMeansExited` | internal/supervisor/client.go:64-84 | Whatever part of what a stop handler wrote arrives: when the client succeeds, the stop call behind it has returned nil and the child is gone |
| `ControlClient.KeptClientAgrees` | internal/supervisor/client.go:64-84 | A kept client that receives all of it succeeds if and only if its stop call returned nil |
| `ControlClient.VerdictOfServer` | internal/supervisor/client.go:64-84 | From any part of what any handler wrote a client never concludes "not running" or a status of stopped, and a success only of the VM it asked for |
| `Lifecycle.OfflineFromControl` | internal/lifecycle/stop.go:79-110 | Which control answers make a call claim the VM offline without the lock: exactly an accepted stop, "not running" to a stop, and a status of stopped |
| `Lifecycle.BusyIsNeverOffline` | internal/lifecycle/status.go:104-161 | A busy lifetime lock is never taken for an offline VM, by stop, status or deletion check |
| `LockInvariant.LocksExclude` | internal/store/lock.go:43-60 | Two processes never hold the same name lock or the same flock |
| `LockInvariant.LockNameKeepsInv` | internal/store/lock.go:43-60 | Taking the name lock keeps the invariant of the two lock levels |
| `LockInvariant.OpenLockKeepsInv` | internal/store/lock_unix.go:16-32 | Opening or creating the lifetime lock file keeps the invariant |
| `LockInvariant.TryFlockKeepsInv` | internal/store/lock_unix.go:55-67 | The nonblocking flock on the opened inode keeps the invariant, taken or refused |
| `LockInvariant.DropLifetimeKeepsInv` | internal/store/lock.go:25-34 | Releasing a flock keeps the invariant |
| `LockInvariant.SaveKeepsInv` | internal/store/lock.go:71-86 | Rewriting a config under the name lock keeps the invariant: the immutable ID stays |
| `LockInvariant.UnlinkKeepsInv` | internal/store/store.go:290-297 | Unlinking a lock file keeps the invariant: no other process relies on that path |
| `LockInvariant.RemoveDirKeepsInv` | internal/store/store.go:290-297 | Removing an empty runtime directory keeps the invariant |
| `LockInvariant.DeleteConfigKeepsInv` | internal/store/store.go:284-290 | Removing the VM directory, and with it the config, keeps the invariant |
| `LockInvariant.MadeKeepsInv` | internal/store/store.go:159-169 | Creating the directories of a new VM claims its runtime key and keeps the invariant |
| `LockInvariant.WriteKeepsInv` | internal/store/store.go:180-188 | The first write of the config, even one that reports an error after the rename, keeps the invariant |
| `LockInvariant.UndoKeepsInv` | internal/store/store.go:407-411 | Rolling a failed creation back keeps the invariant |
| `LockSteps.AcquireKeepsInv` | internal/supervisor/supervisor.go:71-100 | Loading the config and taking the lifetime lock keep the invariant, whatever fails |
| `LockSteps.LaunchKeepsInv` | internal/supervisor/supervisor.go:147-270 | Every step of a supervisor from the reload of the config to the creation of the run keeps the invariant |
| `LockSteps.RunKeepsService` | internal/supervisor/supervisor.go:262-349 | Every step of the run, the supervisor goroutine or the control server keeps the service and its child in step: the child is gone exactly when the run has seen it exit |
| `LockSteps.ReturnKeepsInv` | internal/supervisor/supervisor.go:110-145 | A supervisor that returns with a run leaves no child, so going on to release the lifetime lock keeps the invariant |
| `LockSteps.SuperviseKeepsInv` | internal/supervisor/supervisor.go:100-349 | Every step of a supervisor, from the reload of the config to the last deferred call, keeps the invariant |
| `LockSteps.DeleteKeepsInv` | internal/store/store.go:261-299 | Every step of a deletion keeps the invariant |
| `LockSteps.EditKeepsInv` | internal/store/lock.go:71-86 | Every step of a config edit keeps the invariant |
| `LockSteps.CreateKeepsInv` | internal/store/store.go:144-189 | Every step of a creation and its rollback keeps the invariant |
| `LockSteps.ObserveKeepsInv` | internal/lifecycle/status.go:59-180 | Every step of a stop, status or deletion-check client keeps the invariant |
| `LockSteps.StepKeepsInv` | internal/store/lock.go:37-128 | Inductive invariant over any number of supervisors, deleters, editors, creators and clients |
| `LockSafety.RunInv` | internal/store/lock.go:37-128 | The invariant holds throughout every run from an empty store |
| `LockSafety.LiveChildHoldsPathLock` | internal/supervisor/supervisor.go:71-157 | A live child's supervisor holds the flock on the very inode that its VM's lock path names |
| `LockSafety.OneChildPerVm` | internal/supervisor/supervisor.go:71-157 | At most one child is alive per VM ID, even per 12-digit runtime key |
| `LockSafety.KeysAreDistinct` | internal/store/store.go:135-141 | The runtime keys of two VMs on disk differ although a key keeps 12 digits of the ID |
| `LockSafety.NameLockMakesInodePath` | internal/store/lock.go:100-128 | The name lock makes keying the flock by inode equal to keying it by path: what a supervisor or deleter holds under its name lock is the inode at the path |
| `LockOrphan.ClientMayLockOrphan` | internal/store/lock.go:112-128 | Without the name lock there is no such guarantee: a whole run from the empty store in which a client that opened the file before a deletion unlinked it owns the flock of an inode no path names |
| `LockSafety.ChildStartsFromDisk` | internal/supervisor/supervisor.go:100-157 | A child starts from the config on disk at that moment, under the expected ID |
| `LockSafety.ReapedBeforeRelease` | internal/supervisor/supervisor.go:102-145 | Every exit of Supervise, through waitForTermination or the deferred force, has reaped the child before the lifetime lock is released |
| `LockSafety.EndedHoldsNothing` | internal/supervisor/supervisor.go:71-100 | A process that has ended holds no lock of either level |
| `LockSafety.UnlinkOnlyWhenOffline` | internal/store/store.go:290-297 | A lock path is replaced or unlinked only while no child of that key is alive |
| `LockSafety.DeleteOnlyWhenOffline` | internal/store/store.go:261-299 | Delete removes files of a VM only at instants at which no child of that VM is alive |
| `LockSafety.FreePathLockMeansOffline` | internal/lifecycle/status.go:104-161 | Taking the flock of the inode at the path proves the VM offline at that instant |
| `LockSafety.ToldMeansOffline` | internal/supervisor/control_server.go:96-113 | While a service that has told a stop its success still runs, its VM has no live child |
| `LockSafety.ToldByRunning` | internal/supervisor/control_server.go:96-113 | A success is written only by a service that runs, so the VM is offline at the instant it is written |
| `LockSafety.ReceivedClaims` | internal/lifecycle/stop.go:79-110 | What a client receives of a supervisor's frames claims its VM offline only by the success of a stop of that very VM |
| `LockSafety.StaysJustified` | internal/lifecycle/stop.go:79-128 | From the start of a call on, the lock file a client holds open is at the path, or the VM was offline at some instant of the call; and a success written to its connection implies such an instant too |
| `LockSafety.OfflineAnswersAreTrue` | internal/lifecycle/status.go:59-180 | A Stop that returns nil, a Status of stopped and a DeleteAllowed that returns nil each imply an instant during the call at which the VM had no live child |
| `SerialLogSpec.ActiveLength` | internal/supervisor/serial_log.go:154-179 | After n > 0 bytes the active file is the last ((n-1) mod maxSize)+1 bytes of the stream |
| `SerialLogSpec.FilesAppend` | internal/supervisor/serial_log.go:162-177 | A chunk that fits the active file continues the same window |
| `SerialLogSpec.FilesRotate` | internal/supervisor/serial_log.go:157-161 | A chunk that meets a full active file rotates: backup j becomes the j-th most recent full block |
| `SerialLogSpec.WindowLaw` | internal/supervisor/serial_log.go:154-216 | Writing any input after any stream leaves exactly the files of the concatenated stream |
| `SerialLogSpec.FromEmpty` | internal/supervisor/serial_log.go:154-216 | From an empty log the files after any writes are a function of the concatenated bytes: last block in the active file, full blocks in the backups, absent if never produced |
| `SerialLogSpec.WritesCompose` | internal/supervisor/serial_log.go:154-179 | From any accepted files, gaps included, Write(a) then Write(b) equals Write(a+b) |
| `SerialLogSpec.RotatedRetains` | internal/supervisor/serial_log.go:181-216 | A completed rotation retains exactly what dropping the whole oldest backup retains |
| `SerialLogSpec.DropOldestIsSuffix` | internal/supervisor/serial_log.go:192-196 | Dropping the oldest backup leaves a suffix of what was retained |
| `SerialLog.GapKeepsBytes` | internal/supervisor/serial_log.go:197-203 | Wherever the gap of the removed backup has moved to, the files hold the same bytes: a failed rename loses nothing |
| `SerialLog.RotatingLog.OpenLog` | internal/supervisor/serial_log.go:114-152 | An opened log is valid: exactly the oversized backups are gone, the stale backup is gone, an oversized active file is emptied, size is its length |
| `SerialLog.RotatingLog.ShiftBackups` | internal/supervisor/serial_log.go:197-203 | The renames move every backup by one, or lose nothing when one fails |
| `SerialLog.RotatingLog.Rotate` | internal/supervisor/serial_log.go:181-216 | Success is exactly a rotation; a failure at any step has dropped at most the oldest backup and leaves a file that cannot be written, unless nothing was touched |
| `SerialLogSpec.ChunkLosesOldest` | internal/supervisor/serial_log.go:156-161 | A turn of the write loop that rotated and then wrote any part of its chunk, or none, has lost at most the whole oldest backup beyond what that write displaces |
| `SerialLog.RotatingLog.WriteChunk` | internal/supervisor/serial_log.go:156-177 | One turn of the write loop: exactly the specified chunk without error; with one, all that a write of the bytes consumed retains, but for one whole oldest backup at most |
| `SerialLog.RotatingLog.Write` | internal/supervisor/serial_log.go:154-179 | Refines the window law without error; with failure at any I/O step every byte is retained that a write of the bytes consumed retains, but for one whole oldest backup at most, no file exceeds maxSize, size equals the active length while open |
| `SerialLog.RotatingLog.CloseLog` | internal/supervisor/serial_log.go:218-225 | The handle is given up whether or not closing fails |
| `SerialLog.RotatingLog.WriteOrDisable` | internal/supervisor/serial_log.go:78-84 | A failed Write closes the log for good |
| `SerialLog.RotatingLog.CopyChunk` | internal/supervisor/serial_log.go:76-84 | A nonempty read is written unless logging has been disabled, and never again after the first failure |
| `SerialLog.RotatingLog.Copy` | internal/supervisor/serial_log.go:74-100 | Without a warning the log holds all bytes read, as one Write of them would; otherwise it holds what the first `kept` bytes leave but for one whole oldest backup at most, nothing is written after the first failed Write, and reading goes on |
| `LaunchdSpec.EventKeepsConsistent` | internal/launchd/enable.go:50-184 | A successful Enable, Disable or Start, an upgrade and an activation keep: plist present exactly in the configured domain, jobs loaded only where a plist is |
| `LaunchdSpec.RunIsConsistent` | internal/launchd/start.go:27-91 | That holds throughout every sequence of such events from a cleared state |
| `LaunchdSpec.CallsInRun` | internal/launchd/start.go:41-90 | In every such sequence Enable and Start leave the current render, Enable changes no loaded flag, Disable leaves nothing at all |
| `LaunchdSpec.RollbackInRun` | internal/launchd/disable.go:111-144 | Within such a sequence a rollback without a failed step restores the exact earlier state |
| `LaunchdSpec.DisableClearsExactly` | internal/launchd/disable.go:106-110 | A successful Disable clears everything if and only if its shortcut did not overlook a loaded job |
| `Launchd.DisableOverlooksLoadedJob` | internal/launchd/disable.go:106-110 | Concrete execution: Disable on a job loaded without a plist under scope none returns nil, or the error of an inspection, and the job stays loaded |
| `Launchd.Manager.InspectPath` | internal/launchd/manage.go:118-158 | A plist that is read without error carries this VM's label |
| `Launchd.Manager.VerifyInstalled` | internal/launchd/enable.go:242-274 | Verification succeeds only on the exact bytes |
| `Launchd.Manager.InstallCandidate` | internal/launchd/manage.go:395-435 | The login install refuses an existing file, the system install replaces it; a failed one changes at most that file |
| `Launchd.Manager.RemoveInstalledIfExact` | internal/launchd/enable.go:228-240 | Removes the file only when it holds exactly the expected bytes |
| `Launchd.Manager.InstallPlist` | internal/launchd/enable.go:294-323 | Success leaves exactly the rendered plist; no outcome touches the other domain or a loaded flag |
| `Launchd.Manager.GatherDomain` | internal/launchd/disable.go:64-88 | What Disable records of one domain, the rendered backup of a job loaded without a plist included |
| `Launchd.Manager.DisableDomain` | internal/launchd/disable.go:146-174 | One domain of the loop: success leaves neither plist nor loaded job, the record tracks what was done at every exit, and only the exact plist found is removed even if it was replaced meanwhile |
| `Launchd.Manager.RollbackDomain` | internal/launchd/disable.go:117-142 | Undoing one domain without a failed step restores it, up to the plist that a job loaded without one gains; a job is bootstrapped only from its own backup |
| `Launchd.Manager.Rollback` | internal/launchd/disable.go:111-144 | The rollback in reverse order restores both domains and the scope whenever none of its steps fails |
| `Launchd.Manager.DisableDomains` | internal/launchd/disable.go:146-174 | Both domains in order: success clears them, failure leaves a record of exactly what was done |
| `Launchd.Manager.Commence` | internal/launchd/disable.go:146-184 | Past the gate: both domains and the scope are cleared, or everything is undone |
| `Launchd.Manager.Disable` | internal/launchd/disable.go:45-185 | All or nothing under failure at any step while nobody else interferes: success clears both domains and the scope past the shortcut, a clean rollback restores, a refusal changes nothing. Whoever interferes: loaded flags and scope likewise, only plists found or backed up are removed or bootstrapped, a running VM or a foreign plist is refused before any effect, only a VM reported stopped is booted out |
| `Launchd.Manager.Reconcile` | internal/launchd/enable.go:97-136 | Enable of the configured scope rewrites exactly a drifted plist and leaves a missing one missing |
| `Launchd.Manager.RemoveOrphan` | internal/launchd/enable.go:148-166 | A stray plist under scope none goes, a loaded job stays loaded |
| `Launchd.Manager.Commit` | internal/launchd/enable.go:168-181 | Install then Save; when Save fails, an undo without a failed step leaves no plist and scope none |
| `Launchd.Manager.Enable` | internal/launchd/enable.go:50-184 | Success is the specified state; no outcome changes a loaded flag; every plist removed carries this VM's label or was just written; another configured scope, a foreign plist or an unhealthy runtime is refused before any effect |
| `Launchd.Manager.RefreshPlist` | internal/launchd/start.go:56-74 | The configured domain ends with the current render, or its foreign plist is left alone |
| `Launchd.Manager.Start` | internal/launchd/start.go:27-91 | Success leaves the current plist loaded and nothing else changed; a running VM or scope none is refused before any effect |
| `PlistScan.PlistLabel` | internal/launchd/manage.go:169-230 | The depth-counting loop computes the recursive scan of the token stream, on every stream |
| `PlistScan.PlistProgramArguments` | internal/launchd/manage.go:236-297 | Likewise for the argument scan |
| `PlistScan.DecodeForest` | internal/launchd/manage.go:192-196 | Decoding an element reads its direct text and stops right behind its end tag |
| `PlistTrees.LabelScanIsFold` | internal/launchd/manage.go:180-224 | The label scan over a document's tokens is the fold over the root dict's children |
| `PlistTrees.ArgsScanIsFold` | internal/launchd/manage.go:247-291 | Likewise for the argument scan |
| `PlistTrees.ScansAreFolds` | internal/launchd/manage.go:169-297 | Both, for any tokens around one root dict |
| `PlistTrees.LabelIsLookup` | internal/launchd/manage.go:169-230 | On a well-formed root dict the label scan succeeds with l if and only if the dict has one entry Label, a string with nonempty text l, whatever nested dicts and arrays contain |
| `PlistTrees.ArgumentsAreLookup` | internal/launchd/manage.go:236-297 | The argument scan returns the strings of the arrays under ProgramArguments in order, an error if there are none |
| `PlistTrees.AllStringsExactly` | internal/launchd/manage.go:270-291 | It takes all strings of an array if and only if none follows a child with an array in it |
| `PlistTrees.OneArrayExactly` | internal/launchd/manage.go:236-297 | End to end: with one entry ProgramArguments holding an array, the scan returns all its strings if and only if there are any and none follows a nested array |
| `PlistTrees.NestedArrayCutsArguments` | internal/launchd/manage.go:286-289 | Concrete array whose later string is not read |
| `PlistRender.LayoutReadsBack` | internal/launchd/plist.go:16-74 | The rendered dict has exactly the entries of the template, whichever conditions hold |
| `PlistRender.ScansReadCarried` | internal/launchd/plist.go:172-177 | For all template data the scans read what escaping carried over: characters that XML cannot contain become the replacement character |
| `PlistRender.ScansReadBackRender` | internal/launchd/plist.go:16-74 | For all template data the label scan reads back the label, and the argument scan the program path, start, the name and --foreground, if and only if XML can contain their characters |
| `PlistRender.LabelsAgreeExactly` | internal/launchd/plist.go:95-100 | Two VMs share a label if and only if their first twelve ID characters agree |
| `QgaSpec.WaitsExactly` | internal/qemu/qga.go:336-390 | A wait skips exactly events, frames of other requests and, when synchronising, returns of earlier synchronisations, and accepts exactly its own return |
| `QgaSpec.NoiseThenFrame` | internal/qemu/qga.go:324-390 | Blank lines, events and other requests' frames within the limit are read through; the first other frame decides, and exactly through its newline is consumed |
| `QgaSpec.Resynchronises` | internal/qemu/qga.go:324-362 | After junk without a delimiter, a delimiter and any such noise, synchronisation succeeds on the frame with its own ID and the echoed number, consumed exactly through its newline |
| `QgaSpec.ResultBehindNoise` | internal/qemu/qga.go:364-390 | Waiting for a result returns the payload of the matching frame behind any such noise |
| `QgaSpec.FrameIsLine` | internal/qemu/qga.go:459-487 | A frame is the stripped text of the last line consumed, from behind the newline before it to its own |
| `QgaSpec.NeverAnothersPayload` | internal/qemu/qga.go:364-390 | On any bytes whatever, a returned payload is that of the last whole line consumed, whose frame carries the request's own ID |
| `QgaSpec.StaleFrames` | internal/qemu/qga.go:340-357 | The two waits differ on a stale frame if and only if it has both or neither of return and error |
| `Qga.Reader.ReadUntilDelimiter` | internal/qemu/qga.go:440-455 | Reads exactly through the first delimiter, or fails at the limit or the end |
| `Qga.Reader.ReadFrame` | internal/qemu/qga.go:459-487 | Reads exactly the next line that is not blank, counting blank lines against the limit |
| `Qga.Reader.Await` | internal/qemu/qga.go:336-390 | The reading loop takes exactly what the specification of the reply says |
| `Qga.Reader.AwaitSync` | internal/qemu/qga.go:324-362 | Consumes and returns what the resynchronisation specification says |
| `Qga.Reader.AwaitResult` | internal/qemu/qga.go:364-390 | As specified, and a payload is always the request's own |
| `Qmp.Client.RecordEvent` | internal/qemu/qmp.go:281-300 | Counters equal the number of accepted events of each key also after this event; unknown names and malformed block errors count nowhere |
| `Qmp.Client.ReadMessage` | internal/qemu/qmp.go:441-448 | One message is consumed, or reading fails and keeps failing |
| `Qmp.Client.AwaitReply` | internal/qemu/qmp.go:439-477 | Events are counted, other replies dropped, and the first message with the ID decides; none is passed over |
| `Qmp.Client.ExecuteLocked` | internal/qemu/qmp.go:409-477 | A command takes the next ID, and a payload it returns is that of a message read after it was sent with that ID |
| `Qmp.Client.Execute` | internal/qemu/qmp.go:389-407 | A command cancelled at the gate has consumed no ID and changed nothing |
| `Qmp.Client.EventCounters` | internal/qemu/qmp.go:252-279 | The snapshot counts exactly the accepted events read so far |
| `Qmp.AnswersAreDistinct` | internal/qemu/qmp.go:425-432 | IDs strictly increase and no message answers two commands, whatever was abandoned in between |
| `Qmp.EveryAnswerIsItsOwn` | internal/qemu/qmp.go:439-477 | Against a server that answers an ID at most once every returned payload is its answer to that very command |
| `Qmp.CountsAreMonotone` | internal/qemu/qmp.go:281-300 | Counts never fall as more messages are read |
| `JsonSurrogates.ParseHexEscape` | internal/model/config.go:272-291 | Four hexadecimal digits give their value below 65536; anything else gives none |
| `JsonSurrogates.ScanElement` | internal/model/config.go:228-268 | One element or pair: the index jump stays in step with the scan of the text |
| `JsonSurrogates.ValidateString` | internal/model/config.go:227-270 | The index-jumping loop computes the scan of the string at its offset |
| `JsonSurrogates.ValidateRaw` | internal/model/config.go:210-225 | Accepts exactly valid UTF-8 whose strings the scan accepts |
| `JsonSurrogates.StringScanIsExact` | internal/model/config.go:227-270 | On a well-formed string the scan finds a lone half if and only if there is one it can see |
| `JsonSurrogates.RejectsExactly` | internal/model/config.go:210-270 | A text with well-formed strings is rejected if and only if some string has an unpaired surrogate escape other than a lone high one with fewer than six bytes behind it |
| `JsonSurrogates.PairedIsAccepted` | internal/model/config.go:210-270 | Text whose surrogate escapes are all paired is never rejected |
| `JsonSurrogates.LoneHighIsAccepted` | internal/model/config.go:248-250 | Concrete text with a lone high surrogate that is accepted |
| `ShellWords.RunShowcmd` | internal/cli/info.go:854-872 | Prints exactly the line of quoted words, or a prefix of it when a write fails |
| `ShellWords.EscapedReadsBack` | internal/cli/info.go:903-905 | Inside single quotes the escaped word is read back, whatever follows |
| `ShellWords.QuotedWord` | internal/cli/info.go:903-905 | A quoted word, the empty one included, is one shell word |
| `ShellWords.ShowcmdRoundTrip` | internal/cli/info.go:857-872 | A POSIX shell splits the printed line back into exactly the original words, for any NUL-free words |
| `ShellWords.ShowcmdIsInjective` | internal/cli/info.go:857-872 | Different commands are printed differently |
| `DriveItems.SplitDriveItems` | internal/cli/create.go:675-702 | The index loop computes the recursive split |
| `DriveItems.PrintAfterParse` | internal/cli/create.go:675-702 | Every successful parse, its items escaped and joined, gives back the input text, and its items are nonempty |
| `DriveItems.KeyvalReadsBack` | internal/qemu/command.go:184-186 | An escaped value is read back into the item at hand, whatever follows |
| `DriveItems.ParseIsSeparable` | internal/cli/create.go:675-702 | A parse never yields an item, other than the first, that starts with a comma |
| `DriveItems.RoundTripExactly` | internal/cli/create.go:675-702 | Nonempty items, escaped and joined, are read back if and only if no item after the first starts with a comma |
| `DriveItems.LeadingCommaIsAmbiguous` | internal/cli/create.go:675-702 | The text a,,,b stands for two lists of items and is read as one of them |

## Left out

- Process crashes: a supervisor and its child end through the modelled exits; the kernel's release of
  a dead process's flocks is not a step.
- File modes, ownership, symlink checks, umask, close-on-exec and fsync: a file is present bytes, and
  a config write is an atomic replace that may report an error afterwards.
- Real time: deadlines, contexts and timers are events that may happen at any point.
- The lines and JSON of the control socket, peer credentials and protocol versions: ControlProtocol
  starts from decoded frames.
- A milestone is written by the handler's goroutine within the stop call; in ControlProtocol the call
  may go on before the milestone is written, which only allows more runs.
- Monitoring, metrics and the serial sink of a supervisor are not steps of SuperviseProtocol; a failure
  in their setup is one of the failures of startup.
- The readiness handshake of StartProcess and the detached start: one message over a pipe.
- The lock files and configs are modelled as a state machine over values, with names as numbers and an
  ID as a 12-digit prefix and a rest, since the point is the interleaving of processes, not the update
  of one object.
- External changes to the runtime root, and to log files while a log is open; the checks for them are
  modelled as failures that may happen.
- Launchd.Manager.Meanwhile: interference with plists happens only while launchctl or plutil runs, not
  between a check of a file and the removal or install that follows it at once.
- Launchd.Manager.Start: says nothing of which plist was bootstrapped when the file was replaced after
  it was refreshed; the code does not check again.
- A failed creation removes the VM directory and the config in it again; a RemoveAll that fails
  half-way there is not modelled, because its error is discarded and a later creation is refused.
- In the stop protocol ForceStop returns, and in the lock protocol a failed Start returns, only with
  the child reaped: InstanceProtocol.ForceStopMeansReaped and InstanceProtocol.FailedStartLeavesNoChild
  establish both for the backend's code, which is not run inside the other two.
- InstanceProtocol.NeverStuck: says nothing about a child that survives a SIGKILL the kernel refused
  to deliver; ForceStop then waits for it, as the code does.
- The content of the last-exit and runtime metadata files and of terminalOutcome: simple decisions
  over their fields.
- Launchd.Manager.InstallCandidate: a privileged command that reports failure is taken to have had no
  effect; the temporary candidate file and plutil's verdict are one step that may fail.
- Launchd.Manager.Bootstrap: launchd is taken to refuse a job that is already loaded or has no plist.
- JSON and XML decoding and escaping: the models start from decoded messages and tokens, and the
  decoder undoes text escaping, but for the characters XML cannot contain. Bytes that are no UTF-8,
  which escaping replaces as well, are outside the model's strings.
- QgaSpec.Strip: only ASCII white space is trimmed; Go's TrimSpace also trims the multi-byte spaces of
  Unicode, which a frame of JSON does not start or end with.
- Qmp.Client.ExecuteLocked: IDs and counters are unbounded, so the wrap of a 64-bit counter after 2^63
  commands is not modelled.
- Qmp.Client.EventCounters: the sort of the block error list is left out; the counts are stated.
- JsonSurrogates.ValidateRaw: the verdict of utf8.Valid is a parameter.
- ShellWords.Word: expansions are not modelled; outside single quotes every character that could start
  one makes the splitter give up, which is stricter than a shell.
- Command-line parsing, tables, monitoring and metrics, image download, cloud-init, the VNC viewer,
  host inspection and config validation field by field: no state worth a theorem, or foreign calls.
