/** Option and Result: the Go program's nil `*string` values and `error` returns. */
module Wrappers {

  /** A value that may be absent, as a Go `*string` that may be nil. */
  datatype Option<+T> = None | Some(value: T)

  /** The outcome of a call that may fail with an error message. */
  datatype Result<+T> = Ok(value: T) | Err(error: string)
}
