/** Optional values (the model's stand-in for JavaScript's `undefined`) and results that may be errors. */
module Wrappers {

  datatype Option<+T> = None | Some(value: T) {

    /** The value, or `default` when absent (a JavaScript default parameter). */
    function GetOr(default: T): T
    {
      match this
      case Some(v) => v
      case None => default
    }
  }

  /** A value, or the error a rejected promise or a thrown exception carries. */
  datatype Result<+T, +E> = Ok(value: T) | Err(error: E)
}
