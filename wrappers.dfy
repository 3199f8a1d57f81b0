/** Option and Result, the two failure-carrying types the model uses for SQL NULL,
    Ruby nil and raised errors. */
module Wrappers {

  /** A value that may be absent: SQL NULL or Ruby nil. */
  datatype Option<+T> = None | Some(value: T)

  /** The outcome of a database call: its rows, or the error it raises. */
  datatype Result<+R, +E> = Success(value: R) | Failure(error: E)
}
