/** Option and Result, used for the nullable references and the thrown
    exceptions of the modelled code. */
module Wrappers {

  datatype Option<+T> = None | Some(value: T)

  datatype Result<+R, +E> = Success(value: R) | Failure(error: E)
}
