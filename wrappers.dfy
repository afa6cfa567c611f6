/** Option and Result wrappers, used for JavaScript's `undefined` and for early returns. */
module Wrappers {

  /** `None` stands for a JavaScript value that is `undefined`. */
  datatype Option<+T> = None | Some(value: T)

  /** `Success` carries the value a step produced; `Failure` carries the response sent instead. */
  datatype Result<+R, +E> = Success(value: R) | Failure(error: E)
}
