/** Small shared vocabulary: bytes, optional values, results and the error kinds
    a connection reports to its caller. */
module Basics {

  /** An octet, as read from and written to the socket. */
  newtype byte = x: int | 0 <= x < 256

  datatype Option<+T> = None | Some(value: T)

  datatype Result<+T, +E> = Ok(value: T) | Err(error: E)

  /** An `io::Error` surfaced to the caller; its contents are opaque here. A read's
      `WouldBlock` never becomes one, but a write's `WouldBlock` does. */
  datatype IoError = IoError(code: int)

  /** The errors a connection operation can surface. */
  datatype Error =
    | Io(io: IoError)            // a socket read or write failed
    | ThrottlingRejected         // the throttling service refused to admit more bytes
    | RegistrationFailed         // the I/O context could not refresh the registration
}
