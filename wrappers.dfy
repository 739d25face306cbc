/** Option and Result, used where the JavaScript code yields `undefined`
    or would throw instead of returning a value. */
module Wrappers {

  datatype Option<+T> = None | Some(value: T)

  datatype Result<+R, +E> = Success(value: R) | Failure(error: E)
}
