/** Option and Result values used for the source's null references and thrown exceptions. */
module Wrappers {

  datatype Option<+T> = None | Some(value: T)

  /** The outcome of an operation that the source either completes or aborts with an exception. */
  datatype Result<+T, +E> = Success(value: T) | Failure(error: E)
}
