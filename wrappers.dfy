/** Optional values and fallible results shared by the backend and client models. */
module Wrappers {

  /** A value that may be absent: JavaScript's `undefined`/`null` or a missing document. */
  datatype Option<+T> = None | Some(value: T) {

    /** `x ?? fallback`: the value when present, otherwise the fallback. */
    function GetOr(fallback: T): T {
      match this
      case Some(v) => v
      case None => fallback
    }
  }

  /** The outcome of an operation that may be rejected (a thrown error in the source). */
  datatype Result<+T, +E> = Ok(value: T) | Err(error: E)
}
