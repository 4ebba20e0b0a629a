/** Failure-carrying result types shared by the modules of this model.

    A Rust `panic!` (or an `unwrap` on an absent value) is modelled as a
    `Failure`/`Fail` carrying the panic message, so that the error path is a
    value the contracts can talk about rather than a precondition.
 */
module Wrappers {

  /** Rust's `Option<T>`. */
  datatype Option<+T> = None | Some(value: T) {

    /** The wrapped value, or `default` when absent (Rust `unwrap_or`). */
    function GetOr(default: T): T {
      match this
      case Some(v) => v
      case None => default
    }
  }

  /** Rust's `Result<T, E>`. */
  datatype Result<+T, +E> = Success(value: T) | Failure(error: E)

  /** A success/failure outcome that carries no value (a `()`-returning call
      that may panic). */
  datatype Outcome<+E> = Pass | Fail(error: E)
}
