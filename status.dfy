/**
  The gRPC status a call is answered with (tonic's `Status` and `Code`), and
  the three ways an operation of the interceptor can end: a value, a status
  returned to the caller, or a panic of the task serving the call.
 */
module Grpc {

  /** The gRPC status codes, as tonic names them (`Ok` is never an error status here). */
  datatype Code =
    | Cancelled | Unknown | InvalidArgument | DeadlineExceeded | NotFound
    | AlreadyExists | PermissionDenied | ResourceExhausted | FailedPrecondition
    | Aborted | OutOfRange | Unimplemented | Internal | Unavailable | DataLoss
    | Unauthenticated

  datatype Status = Status(code: Code, message: string)

  /**
    `Ok` and `Err` are a Rust `Result<T, Status>`; `Panic` is an `unwrap`,
    `expect` or library panic, after which no status is produced at all.
   */
  datatype Outcome<+T> = Ok(value: T) | Err(status: Status) | Panic
}
