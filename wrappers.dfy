/** Option and Result, the failure-compatible wrappers used across the model. */
module Wrappers {

  datatype Option<+T> = None | Some(value: T) {
    predicate IsFailure() { None? }

    function PropagateFailure<U>(): Option<U>
      requires None?
    {
      None
    }

    function Extract(): T
      requires Some?
    {
      value
    }

    function GetOr(fallback: T): T {
      match this
      case Some(v) => v
      case None => fallback
    }
  }

  datatype Result<+R, +E> = Success(value: R) | Failure(error: E) {
    predicate IsFailure() { Failure? }

    function PropagateFailure<U>(): Result<U, E>
      requires Failure?
    {
      Failure(error)
    }

    function Extract(): R
      requires Success?
    {
      value
    }
  }
}

/** The exceptions the PHP code raises, by class, message and code. */
module Errors {

  datatype ExceptionClass =
    | PlainException   // \Exception
    | RouteException   // PinkCrab\Route\Route_Exception
    | TypeError        // PHP's \TypeError (declared types under strict_types)
    | Error            // PHP's \Error (invalid operations on values)

  datatype Exception = Exception(kind: ExceptionClass, message: string, code: int)

  /** A PHP TypeError; the engine raises it with code 0. */
  function TypeErrorOf(message: string): Exception {
    Exception(TypeError, message, 0)
  }
}
