/** Option and Result values, standing in for JavaScript's `undefined`/`null`
    returns and for the one exception the parser throws. */
module Wrappers {

  /** `None` is JavaScript's `undefined` (or `null`) where a value may be absent. */
  datatype Option<+T> = None | Some(value: T)

  /** `Failure` is a thrown error that aborts the caller. */
  datatype Result<+T, +E> = Success(value: T) | Failure(error: E)
}
