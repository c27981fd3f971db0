/** Failure-carrying datatypes shared by every module of the model.

    The modelled system reports errors by throwing .NET exceptions; the model
    returns them instead, as the `Failure` case of `Result`. A C# `null`
    reference becomes `None`.
 */
module Wrappers {

  /** A possibly-absent value: `None` models a C# `null`. */
  datatype Option<+T> = None | Some(value: T) {

    /** The value, or `default` when absent (C#'s `??`). */
    function GetOr(default: T): T {
      match this
      case Some(v) => v
      case None => default
    }

    /** This value if present, otherwise `other` (C#'s `??` between two nullables). */
    function OrElse(other: Option<T>): Option<T> {
      if Some? then this else other
    }
  }

  /** The .NET exceptions the modelled code throws, with the parameter name or
      message the source passes to them. `JsonException` is what the JSON
      reader throws on text that is not well-formed JSON. */
  datatype Exception =
    | ArgumentNullException(paramName: string)
    | ArgumentException(paramName: string, message: string)
    | ArgumentOutOfRangeException(paramName: string)
    | InvalidOperationException(message: string)
    | JsonException

  /** Either the value an operation returns or the exception it throws. */
  datatype Result<+T> = Success(value: T) | Failure(error: Exception) {

    predicate IsFailure() {
      Failure?
    }

    function PropagateFailure<U>(): Result<U>
      requires Failure?
    {
      Failure(error)
    }

    function Extract(): T
      requires Success?
    {
      value
    }
  }

  /** The state an operation leaves behind, together with the exception it
      threw part-way through, if any. Used where the source mutates an object
      in a loop that may throw, so the mutations made before the throw remain. */
  datatype Applied<+T> = Applied(state: T, failure: Option<Exception>)
}
