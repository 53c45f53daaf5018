/**
  The decisions of internal/lifecycle: what a stop, a status query and a deletion check conclude from
  one control exchange and, failing that, from one attempt at the lifetime lock.
 */
module Lifecycle {
  import opened Model
  import opened Wrappers

  /** How one exchange on the control socket ended. */
  datatype Control =
    | Accepted(status: Option<RunState>)   // a terminal frame with ok set
    | Refused(code: ErrorCode)             // a terminal frame with an error
    | Unavailable                          // no connection, or the stream ended
    | Garbled                              // any other failed exchange

  /** What the last-exit file says, read after the lock was taken and released. */
  datatype LastExit = Absent | Unreadable | OtherVm | ExitCode(code: int)

  datatype Call = Stop | Status | DeleteAllowed

  /** What a call returns; `StateIs` is a status without error, `Done` a nil error. */
  datatype Answer = Done | StateIs(state: RunState) | Error

  /** The call has its answer, or it goes on to the lifetime lock. */
  datatype Decision = Answered(answer: Answer) | TryLock

  /** What a call concludes from the control exchange alone. */
  function AfterControl(call: Call, control: Control): Decision {
    match call
    case Stop => (
      match control
      case Accepted(_) => Answered(Done)
      case Refused(NotRunning) => Answered(Done)
      case Refused(_) => Answered(Error)
      case _ => TryLock)
    case _ => (
      match control
      // An authenticated answer means the lock is held: a deletion check refuses whatever it says.
      case Accepted(Some(state)) => if call == Status then Answered(StateIs(state)) else Answered(Error)
      case Unavailable => TryLock
      case _ => Answered(Error))
  }

  /** The state a status query derives when it could take and release the lifetime lock. */
  function OfflineState(last: LastExit): RunState {
    if last == Absent || last == ExitCode(0) then Stopped else Failed
  }

  /** What a call concludes after it took the lifetime lock and released it again. */
  function AfterLock(call: Call, last: LastExit): Answer {
    match call
    case Stop => Done
    case Status => StateIs(OfflineState(last))
    case DeleteAllowed => Done  // stopped and failed are both deletable
  }

  /**
    What a call concludes when the lifetime lock is held by someone else.  `starting` is the verdict
    on the runtime metadata: it names this VM and started within the observation window.
   */
  function AfterBusy(call: Call, starting: bool): Answer {
    match call
    case Status => StateIs(if starting then Starting else Failed)
    case _ => Error
  }

  /** An answer that lets the caller treat the VM as having no live child. */
  predicate ClaimsOffline(call: Call, answer: Answer) {
    match call
    case Status => answer == StateIs(Stopped)
    case _ => answer == Done
  }

  /**
    Which control exchanges make a call claim the VM is offline without looking at the lock: only a
    stop that the supervisor accepted or answered with "not running", and a status of "stopped".
   */
  lemma OfflineFromControl(call: Call, control: Control)
    ensures AfterControl(call, control).Answered? && ClaimsOffline(call, AfterControl(call, control).answer) <==>
      || (call == Stop && (control.Accepted? || control == Refused(NotRunning)))
      || (call == Status && control == Accepted(Some(Stopped)))
  {
  }

  /** A busy lifetime lock is never taken for an offline VM. */
  lemma BusyIsNeverOffline(call: Call, starting: bool)
    ensures !ClaimsOffline(call, AfterBusy(call, starting))
  {
  }
}
