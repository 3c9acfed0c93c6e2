/** Option and Result, as used throughout the model. */
module Wrappers {

  /** `None` stands for JavaScript's `undefined`/`null` where the model needs it. */
  datatype Option<+T> = None | Some(value: T) {

    /** The wrapped value, or `default` when there is none. */
    function GetOr(default: T): T {
      match this
      case Some(v) => v
      case None => default
    }
  }

  datatype Result<+T, +E> = Success(value: T) | Failure(error: E)
}
