/** Option and Result, the shapes of Swift's `T?` and `Result<Success, Failure>`. */
module Wrappers {

  /** Swift's optional: `nil` is `None`. */
  datatype Option<+T> = None | Some(value: T) {

    /** Swift's `??`: the wrapped value, or `default` for `nil`. */
    function GetOr(default: T): T
    {
      match this
      case Some(v) => v
      case None => default
    }
  }

  /** Swift's `Result`: `.success(value)` or `.failure(error)`. */
  datatype Result<+R, +E> = Success(value: R) | Failure(error: E)
}
