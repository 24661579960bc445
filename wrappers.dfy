/** Failure-carrying values used to model Go's `(T, error)` returns and the
    answers of the storage SDK. */
module Wrappers {

  /** Go's `error`: `None` is `nil`. */
  datatype Option<+T> = None | Some(value: T)

  /** The answer of an SDK call whose only interesting output is its error. */
  datatype Outcome<+E> = Pass | Fail(error: E)

  /** The answer of an SDK call that yields a value or an error. */
  datatype Result<+R, +E> = Success(value: R) | Failure(error: E)
}
