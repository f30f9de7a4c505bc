/** Failure-compatible wrappers and the exceptions the styling library throws. */
module Wrappers {

  /** A value that may be absent; stands for a C# reference that may be null. */
  datatype Option<+T> = None | Some(value: T)

  /** The outcome of a call that returns a value or throws. */
  datatype Result<+T, +E> = Success(value: T) | Failure(error: E)

  /** The outcome of a call that returns nothing or throws. */
  datatype Outcome<+E> = Pass | Fail(error: E)

  /**
   * A delegate (Func<T>) passed by a caller: either a null reference or a
   * callback whose (side-effect free) invocation yields `result`.
   */
  datatype Callback<+T> = NullCallback | Returns(result: T)

  /** The exceptions thrown by the core. */
  datatype Error =
    | ArgumentNull(paramName: string)                   // ArgumentNullException
    | Argument(message: string)                         // ArgumentException
    | NullReference                                     // invoking a null delegate
    | NonBooleanProperty(typeName: string, propertyName: string)
}
