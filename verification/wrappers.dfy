/** Optional values and fallible results, shared by every module of the model. */
module Wrappers {

  /** A value that may be absent: an optional property left `undefined`. (`null` is not modelled.) */
  datatype Option<+T> = None | Some(value: T) {

    /** The value when present, `default` otherwise: JavaScript's `??` and default parameters, for an absent value. */
    function GetOr(default: T): T {
      match this
      case Some(v) => v
      case None => default
    }
  }

  /** The outcome of an operation that may reject (a thrown exception or a rejected promise). */
  datatype Result<+R, +E> = Success(value: R) | Failure(error: E)
}
