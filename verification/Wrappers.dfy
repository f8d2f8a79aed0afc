/** Results and optional values: the model's form of Go's `(value, error)` and nil-able returns. */
module Wrappers {

  datatype Option<+T> = None | Some(value: T)

  /** Unit is the value of an operation that only reports whether it failed. */
  datatype Unit = Unit

  /** Panicked stands for a Go run-time panic, as opposed to a returned error. */
  datatype Result<+T> = Ok(value: T) | Err(error: string) | Panicked
}
