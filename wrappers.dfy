/** Optional values and the error outcomes of the player and game routes. */
module Wrappers {

  datatype Option<+T> = None | Some(value: T) {
    function GetOr(default: T): T {
      match this
      case Some(v) => v
      case None => default
    }
  }

  /** The two ways a route fails: the document is missing (404) or the
      request is rejected by validation, by a duplicate id or by an error
      thrown while it is handled (400). */
  datatype Error = NotFound | Invalid

  datatype Result<+T> = Ok(value: T) | Err(error: Error)
}
