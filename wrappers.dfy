/** Optional values and the outcome of an operation that may throw. */
module Wrappers {

  datatype Option<T> = None | Some(value: T)

  /** The Java exception classes the modelled code throws or runs into. */
  datatype Error =
    | IllegalArgument
    | IllegalState
    | UnsupportedOperation
    | IndexOutOfBounds
    | NullPointer
    | IOFailure

  datatype Result<T> = Ok(value: T) | Err(error: Error)

  /** The outcome of a `void` method that may throw. */
  datatype Outcome = Success | Failure(error: Error)

  /** Appending is associative; call logs are built by repeated appends. */
  lemma AppendAssoc<X>(x: seq<X>, y: seq<X>, z: seq<X>)
    ensures x + y + z == x + (y + z)
  {
  }
}
