/** Optional values and error-or-value results shared by the scraper model. */
module Wrappers {

  datatype Option<+T> = None | Some(value: T) {
    function GetOr(default: T): T {
      match this
      case Some(v) => v
      case None => default
    }
  }

  /** A computation that either produced a value or raised a (Python) exception. */
  datatype Result<+T, +E> = Ok(value: T) | Err(error: E)
}
