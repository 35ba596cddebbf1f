/** Null-able values and results with an error branch, shared by every module.
    `Option<string>` stands for a C# `string?` or a JavaScript `string | null`;
    `Result` stands for a value or the exception that would have been thrown. */
module Wrappers {

  datatype Option<+T> = None | Some(value: T) {
    /** The C# `??` operator: the value, or `default` when null. */
    function GetOr(default: T): T {
      match this
      case Some(v) => v
      case None => default
    }
  }

  datatype Result<+T, +E> = Success(value: T) | Failure(error: E) {
    predicate IsFailure() {
      Failure?
    }

    function PropagateFailure<U>(): Result<U, E>
      requires Failure?
    {
      Failure(error)
    }

    function Extract(): T
      requires Success?
    {
      value
    }
  }
}
