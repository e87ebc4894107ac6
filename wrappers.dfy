/** Option and Result, the failure-carrying values the model returns where
    the Python code raises an exception or a loop has no bound. */
module Wrappers {

  datatype Option<+T> = None | Some(value: T)

  datatype Result<+T, +E> = Success(value: T) | Failure(error: E)
}
