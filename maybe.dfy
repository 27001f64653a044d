/** Optional values and fallible results, as the scripts use them: a JSON key
    that may be absent, and an operation that may raise. */
module Maybe {

  /** A value that may be missing: an absent dictionary key is `None`. */
  datatype Option<+T> = None | Some(value: T) {

    /** Python's `d.get(key, default)`. */
    function GetOr(default: T): T {
      match this
      case Some(v) => v
      case None => default
    }
  }

  /** The outcome of an operation that may raise instead of returning. */
  datatype Result<+T, +E> = Success(value: T) | Failure(error: E)
}
