/** Option and Result. The evaluator reports a failed lookup as a `Failure`
    value where the original program raises an exception. */
module Wrappers {

  datatype Option<+T> = None | Some(value: T)

  datatype Result<+T, +E> = Success(value: T) | Failure(error: E)
}
