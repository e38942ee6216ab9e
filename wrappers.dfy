/** Option and Result: the optional values and thrown errors of the modelled Swift code. */
module Wrappers {

  /** Swift's `T?`. */
  datatype Option<+T> = None | Some(value: T) {

    /** Swift's `??`: the wrapped value, or `default` when there is none. */
    function GetOr(default: T): T {
      match this
      case Some(v) => v
      case None => default
    }
  }

  /** The outcome of a Swift function that `throws`. */
  datatype Result<+R, +E> = Success(value: R) | Failure(error: E)
}
