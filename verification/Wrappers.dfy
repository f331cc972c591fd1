/**
 * The two outcome types of the model. Each supplies the three members that
 * Dafny's `:-` operator looks for, so that a chain of steps stops at the
 * first missing value or the first raised exception.
 */
module Wrappers {

  /**
   * A value that may be absent. The PHP code signals "nothing" with a falsy
   * return (`false`, `null`); the model writes that as `None`.
   */
  datatype Option<+T> = None | Some(value: T) {

    /** `:-` stops here when there is no value. */
    predicate IsFailure() {
      None?
    }

    /** Carries the absence on to a step of another type. */
    function PropagateFailure<U>(): Option<U>
      requires None?
    {
      None
    }

    /** The value that `:-` binds when there is one. */
    function Extract(): T
      requires Some?
    {
      value
    }
  }

  /**
   * The outcome of a PHP call that may throw: the returned value, or the
   * exception it raised in its place.
   */
  datatype Result<+R, +E> = Success(value: R) | Failure(error: E) {

    /** `:-` stops here when an exception was raised. */
    predicate IsFailure() {
      Failure?
    }

    /** Re-raises the same exception from a step of another result type. */
    function PropagateFailure<U>(): Result<U, E>
      requires Failure?
    {
      Failure(error)
    }

    /** The returned value that `:-` binds. */
    function Extract(): R
      requires Success?
    {
      value
    }
  }
}
