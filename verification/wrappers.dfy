/** Failure-carrying datatypes used throughout the model: `Option` for values
    Python represents as "possibly None", `Result` for operations that either
    return a value or raise. */
module Wrappers {

  datatype Option<+T> = None | Some(value: T)

  datatype Result<+T, +E> = Success(value: T) | Failure(error: E)
}
