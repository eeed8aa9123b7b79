/** Outcome types shared by every module of the model. */
module Wrappers {
  /** A value that may be missing: the failed outcome of a ledger call, a map miss. */
  datatype Option<+T> = None | Some(value: T)

  /** A value or an error, for the operations that report failures to their caller. */
  datatype Result<+T, +E> = Success(value: T) | Failure(error: E)
}
