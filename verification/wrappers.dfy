/** Failure-carrying result types shared by every module of the model.
    Go's `error` values are modelled by their message text. */
module Wrappers {

  datatype Option<+T> = None | Some(value: T)

  /** The `(value, error)` pair of a Go call: exactly one side is meaningful. */
  datatype Result<+T> = Ok(value: T) | Err(error: string)
}
