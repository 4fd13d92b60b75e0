/** Option and Result stand for the null references and the exceptions of the
    modelled code: `None` is a null reference, `Failure(e)` an exception `e`
    that propagates out of an operation. */
module Wrappers {

  datatype Option<+T> = None | Some(value: T)

  datatype Result<+R, +E> = Success(value: R) | Failure(error: E)

  /** The outcome of a `void` operation that may throw. */
  datatype Outcome<+E> = Pass | Fail(error: E)
}
