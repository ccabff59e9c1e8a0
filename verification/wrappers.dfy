/** Failure-carrying wrappers used across the model: an optional value and a
    success-or-error result. */
module Wrappers {

  /** An optional value; `None` stands for an absent, null or unparsable one. */
  datatype Option<+T> = None | Some(value: T) {

    /** The wrapped value, or `default` when there is none. */
    function GetOr(default: T): T {
      match this
      case Some(v) => v
      case None => default
    }
  }

  /** The outcome of a step that either produces a value or fails with an error. */
  datatype Result<+R, +E> = Success(value: R) | Failure(error: E)
}
