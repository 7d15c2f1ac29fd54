/** Small value wrappers shared by the other modules. */
module Wrappers {

  /** A value that may be absent: a nullable column, an optional field. */
  datatype Option<+T> = None | Some(value: T)

  /** The result of an operation that either succeeds or fails with an error. */
  datatype Outcome<+E> = Pass | Fail(error: E)
}
