/** Option, Result and Outcome: the error paths of the dashboard's pipeline. */
module Wrappers {

  /** A value that may be missing, as a pandas cell that may be NaN. */
  datatype Option<+T> = None | Some(value: T)

  /** The outcome of a step that either produces a value or stops with an error. */
  datatype Result<+R, +E> = Success(value: R) | Failure(error: E)

  /** The outcome of a step that produces nothing but may stop with an error. */
  datatype Outcome<+E> = Pass | Fail(error: E)

  function Min(a: int, b: int): int
  {
    if a <= b then a else b
  }
}
