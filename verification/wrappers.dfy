/** Failure-compatible wrappers used across the model: `Option` for a value that
    may be absent (a NaN cell, an unset tier, a dictionary key that was never
    assigned) and `Result` for a stage that raises instead of returning. */
module Wrappers {

  datatype Option<+T> = None | Some(value: T) {

    /** The wrapped value, or `default` when absent (pandas' `fillna(default)`). */
    function GetOr(default: T): T {
      match this
      case Some(v) => v
      case None => default
    }
  }

  datatype Result<+R, +E> = Success(value: R) | Failure(error: E)
}
