/** Optional values and failure-compatible results, the model's stand-ins for Java's
    nullable references and for methods that either return or throw. */
module Wrappers {

  /** A reference that may be null. */
  datatype Option<+T> = None | Some(value: T)

  /** The outcome of a Java call: a returned value, or the exception it throws.
      Usable with `:-`, which plays the part of an exception propagating to the caller. */
  datatype Result<+T, +E> = Ok(value: T) | Err(error: E) {

    predicate IsFailure() {
      Err?
    }

    function PropagateFailure<U>(): Result<U, E>
      requires Err?
    {
      Err(error)
    }

    function Extract(): T
      requires Ok?
    {
      value
    }
  }
}
