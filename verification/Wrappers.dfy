/** Values that may be absent, and the outcome of an operation that may be refused. */
module Wrappers {
  datatype Option<+T> = None | Some(value: T)
  {
    function GetOr(default: T): T {
      match this
      case Some(v) => v
      case None => default
    }
  }

  datatype Result<+T, +E> = Success(value: T) | Failure(error: E)
}
