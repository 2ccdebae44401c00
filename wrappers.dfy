/** Option and Result values shared by the backend and the dashboard models. */
module Wrappers {

  datatype Option<+T> = None | Some(value: T)

  /** A handler outcome: a value, or the error message the handler replies with. */
  datatype Result<+T> = Success(value: T) | Failure(error: string)
}
