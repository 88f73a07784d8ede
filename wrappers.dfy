/** Option and Result values for the model's optional fields and error paths. */
module Wrappers {

  datatype Option<+T> = None | Some(value: T)

  /** The outcome of an operation that the source either completes or aborts with an exception. */
  datatype Result<+R, +E> = Success(value: R) | Failure(error: E)
}
