/** Failure-carrying return values, standing in for Python's `None` results and raised exceptions. */
module Wrappers {

  /** `None` or a value, as a Python function that may return `None`. */
  datatype Option<+T> = None | Some(value: T)

  /** A value or the exception that replaced it. */
  datatype Result<+T, +E> = Success(value: T) | Failure(error: E)

  /** A call made for its effect: it completed, or it raised `error`. */
  datatype Outcome<+E> = Pass | Fail(error: E)
}
