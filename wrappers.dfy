/** Option and Result, used for the parser's "Invalid Date" and for the
    exception fetchData raises on a dangling link row. */
module Wrappers {

  datatype Option<+T> = None | Some(value: T)

  datatype Result<+R, +E> = Success(value: R) | Failure(error: E)
}
