/** Failure-compatible wrappers shared by every module of the model. */
module Wrappers {

  datatype Option<+T> = None | Some(value: T) {
    predicate IsFailure() { None? }

    function PropagateFailure<U>(): Option<U>
      requires None?
    {
      None
    }

    function Extract(): T
      requires Some?
    {
      value
    }
  }

  datatype Result<+R, +E> = Success(value: R) | Failure(error: E) {
    predicate IsFailure() { Failure? }

    function PropagateFailure<U>(): Result<U, E>
      requires Failure?
    {
      Failure(error)
    }

    function Extract(): R
      requires Success?
    {
      value
    }
  }
}

/** The Python exception classes that can escape from the modelled code. */
module Exceptions {

  datatype PyException =
    | ValueError      // strptime mismatch, JSON syntax error
    | TypeError       // strptime given a non-string, namedtuple missing an argument, unhashable key
    | OverflowError   // datetime +/- timedelta leaving years 1..9999
    | AttributeError  // `.get` on a decoded JSON value that is not a dict
}
