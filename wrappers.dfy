/** Optional values and results with an error message, used for Python's
    `None` returns and for exceptions the code raises. */
module Wrappers {

  datatype Option<+T> = None | Some(value: T)

  datatype Result<+T> = Success(value: T) | Failure(error: string)
}
