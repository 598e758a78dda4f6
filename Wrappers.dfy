/** Option and Result values used for the JavaScript `null`/`undefined`
    cases and for the error paths of the modelled handlers. */
module Wrappers {

  datatype Option<+T> = None | Some(value: T)

  datatype Result<+R, +E> = Success(value: R) | Failure(error: E)
}
