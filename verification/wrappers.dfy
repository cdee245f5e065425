/** Option and Result: the two failure-carrying shapes the rest of the model
    uses for JavaScript's `undefined`/`null` and for thrown errors. */
module Wrappers {

  /** An optional value; `None` stands for a property that is `undefined`
      (or `null`) in the source. */
  datatype Option<+T> = None | Some(value: T) {

    /** Returns the present value, or `default` when absent (JavaScript's `??`). */
    function GetOr(default: T): T {
      match this
      case Some(v) => v
      case None => default
    }
  }

  /** Either a computed value or an error value. */
  datatype Result<+R, +E> = Success(value: R) | Failure(error: E)
}
