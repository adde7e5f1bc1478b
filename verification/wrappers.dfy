/** Failure-compatible wrappers shared by the server and the browser models.
    - Option<T> stands for a value that may be absent (Python `None`, JavaScript
      `null`/`undefined`).
    - Result<R, E> stands for a computation that either returns or raises.
 */
module Wrappers {

  datatype Option<+T> = None | Some(value: T) {

    /** The wrapped value, or `default` when there is none. */
    function GetOr(default: T): T
    {
      match this
      case Some(v) => v
      case None => default
    }
  }

  datatype Result<+R, +E> = Success(value: R) | Failure(error: E)
}
