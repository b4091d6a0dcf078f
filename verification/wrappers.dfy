/** Failure-carrying wrappers shared by every module of the model. A remote
    call of the client (an HTTP request, a picker, an upload) is never run:
    its outcome is handed to the transition as one of these values. */
module Wrappers {

  /** A value that may be missing: `undefined`/`null` in the client. */
  datatype Option<+T> = None | Some(value: T) {

    /** The wrapped value, or `default` when missing (the client's `x ?? d`). */
    function GetOr(default: T): T {
      match this
      case Some(v) => v
      case None => default
    }
  }

  /** The settled outcome of an asynchronous call: resolved or rejected. */
  datatype Result<+R, +E> = Success(value: R) | Failure(error: E)
}
