/** Vocabulary that several components share (internal/model, internal/supervisor/protocol.go). */
module Model {
  /** An ID of 32 hexadecimal digits, as the number its first 12 digits spell and the one the rest spell. */
  datatype Id = Id(prefix: nat, rest: nat)

  /** The state of a VM as status reports it. */
  datatype RunState = Starting | Running | Paused | Stopping | Stopped | Failed

  /** The code of a failure frame on the control socket. */
  datatype ErrorCode = InvalidRequest | Unauthorized | NotRunning | ShutdownTimeout | Internal
}
