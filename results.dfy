/** Optional values and success-or-error results shared by the other modules. */
module Results {

  /** A value that may be missing: an absent JSON key, or a SQL NULL. */
  datatype Option<+T> = None | Some(value: T) {

    /** Python's `d.get(key, default)`: the value if present, else the default. */
    function GetOr(default: T): T {
      match this
      case Some(v) => v
      case None => default
    }
  }

  /** The outcome of an operation that can raise or report an error. */
  datatype Result<+R, +E> = Success(value: R) | Failure(error: E)
}
