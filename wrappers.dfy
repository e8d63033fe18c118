/** Option and Result, the two failure-carrying shapes the model uses. */
module Wrappers {

  /** A value that may be absent: SQL NULL, Python None, a lookup that finds nothing. */
  datatype Option<+T> = None | Some(value: T)

  /** The outcome of a statement: its value, or the error the database raised instead. */
  datatype Result<+T, +E> = Success(value: T) | Failure(error: E)
}
