/** Option and Result: the model's stand-ins for a missing dictionary key and for a raised exception. */
module Wrappers {

  datatype Option<+T> = None | Some(value: T) {
    /** The value if there is one, and `default` otherwise (a dictionary lookup with a default). */
    function GetOr(default: T): T {
      match this
      case Some(v) => v
      case None => default
    }
  }

  datatype Result<+T, +E> = Success(value: T) | Failure(error: E)
}
