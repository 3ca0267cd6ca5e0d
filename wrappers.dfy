/** Optional values: a JavaScript `null`/`undefined` or an absent JSON field. */
module Wrappers {

  datatype Option<+T> = None | Some(value: T) {

    /** The value when present, otherwise `default`. */
    function GetOr(default: T): T {
      match this
      case Some(v) => v
      case None => default
    }
  }

  /** A successful value or an error message (a thrown JavaScript `Error`). */
  datatype Result<+T> = Ok(value: T) | Err(message: string)
}
