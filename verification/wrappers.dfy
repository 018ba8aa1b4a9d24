/** Optional values and fallible results, standing in for Java's nullable references and
    thrown exceptions. */
module Wrappers {

  /** A value that may be absent; `None` plays the role of a Java `null` or an unset
      optional protobuf field. */
  datatype Option<+T> = None | Some(value: T)

  /** The outcome of an operation that either returns a value or raises an error. */
  datatype Result<+R, +E> = Success(value: R) | Failure(error: E) {

    predicate IsFailure() {
      Failure?
    }

    function PropagateFailure<U>(): Result<U, E>
      requires Failure?
    {
      Failure(error)
    }

    function Extract(): R
      requires Success?
    {
      value
    }
  }
}
