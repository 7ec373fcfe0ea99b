/** Go's value-or-error conventions, as the model uses them. */
module Wrappers {

  /** A value that may be absent: a nil pointer in Go. */
  datatype Option<+T> = None | Some(value: T)

  /** A non-nil Go `error`, reduced to the text its `Error()` method returns. */
  datatype Error = Error(text: string)

  /** The outcome of a library call returning `(T, error)`: a value when the error is nil, the error otherwise. */
  datatype Result<+T> = Ok(value: T) | Err(error: Error)

  /** A Go `(string, error)` return pair; `err == None` is a nil error. */
  datatype Returned = Returned(text: string, err: Option<Error>)
}
