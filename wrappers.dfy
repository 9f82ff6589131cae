/** Option and Result, used for nullable columns and for runs that abort. */
module Wrappers {

  datatype Option<+T> = None | Some(value: T)

  /** The outcome of an atomic run: the value it computes or the error that aborts it. */
  datatype Result<+T, +E> = Success(value: T) | Failure(error: E)
}
