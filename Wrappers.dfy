/** Optional values and pass/fail outcomes shared by every module of the model. */
module Wrappers {

  /** A value that may be absent; `None` stands for JavaScript's `undefined` or `null`. */
  datatype Option<+T> = None | Some(value: T) {
    function GetOr(default: T): T {
      match this
      case Some(v) => v
      case None => default
    }
  }

  /** The result of an operation that either completes or fails with an error value. */
  datatype Outcome<+E> = Pass | Fail(error: E)
}
