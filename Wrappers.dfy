/** Nullable values and exception-or-value results, as the C# code uses them. */
module Wrappers {

  /** A C# nullable reference or value: `null` is None. */
  datatype Option<+T> = None | Some(value: T) {
    /** `x ?? d` */
    function GetOr(default: T): T {
      match this
      case Some(v) => v
      case None => default
    }
  }

  /** A call that either returns a value or throws. */
  datatype Result<+R, +E> = Success(value: R) | Failure(error: E)
}
