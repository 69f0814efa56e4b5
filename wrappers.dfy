/** Success/failure wrappers shared by the migration scripts' models. */
module Wrappers {

  /** A value that may be absent: JavaScript's `undefined`/`null`. */
  datatype Option<+T> = None | Some(value: T)

  /** The outcome of an operation that may throw: `Err` carries what was thrown. */
  datatype Result<+T, +E> = Ok(value: T) | Err(error: E)

  /** An error a storage service call throws: its HTTP status and its message. */
  datatype ServiceError = ServiceError(statusCode: int, message: string)
}
