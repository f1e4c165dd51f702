/** Option and pass/fail values standing in for Go's `(value, ok)` pairs and `error` results. */
module Wrappers {

  datatype Option<+T> = None | Some(value: T)

  /** `Pass` is Go's `nil` error; `Fail(e)` carries the error value. */
  datatype Outcome<+E> = Pass | Fail(error: E)
}
