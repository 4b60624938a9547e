/** Go's optional values and (value, err) pairs, as the modelled code returns them. */
module Wrappers {

  datatype Option<+T> = None | Some(value: T)

  /** A Go `(value, err)` pair: either a value or an error message. */
  datatype Result<+T> = Success(value: T) | Failure(error: string)
}
