/** The backend's error enum and the message each variant displays. */
module Errors {

  datatype Circle9Error =
    | SSHError(detail: string)
    | TransferError(detail: string)
    | MutexPoisoned
    | InvalidPath(detail: string)
    | Timeout
    | IoError(detail: string)
    | Ssh2Error(detail: string)
    | SerializationError(detail: string)
    | AnyhowError(detail: string)

  /** The text `to_string()` gives for an error. */
  function Message(e: Circle9Error): string
  {
    match e
    case SSHError(d) => "SSH connection failed: " + d
    case TransferError(d) => "File transfer failed: " + d
    case MutexPoisoned => "Mutex poisoned"
    case InvalidPath(d) => "Invalid path: " + d
    case Timeout => "Operation timeout"
    case IoError(d) => "IO error: " + d
    case Ssh2Error(d) => "SSH2 error: " + d
    case SerializationError(d) => "Serialization error: " + d
    case AnyhowError(d) => "Anyhow error: " + d
  }
}
