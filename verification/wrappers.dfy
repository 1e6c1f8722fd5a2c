/** Failure-carrying results used by the checker, the evaluator and the parser. */
module Wrappers {

  datatype Option<+T> = None | Some(value: T)

  datatype Result<+T, +E> = Ok(value: T) | Err(error: E)

  /** A result that carries no value on success (the `Result<()>` of `check`). */
  datatype Outcome<+E> = Pass | Fail(error: E)
}
