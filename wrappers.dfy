/** Optional values (the source's `null`) and results (the source's exceptions). */
module Wrappers {

  /** `None` stands for a C# `null` reference. */
  datatype Option<+T> = None | Some(value: T) {
    function GetOr(default: T): T
    {
      match this
      case Some(v) => v
      case None => default
    }
  }

  /** `Failure` stands for an exception the source lets propagate. */
  datatype Result<+R, +E> = Success(value: R) | Failure(error: E)
}
