/** Failure-compatible wrappers shared by every module of the model. */
module Wrappers {

  /** A value that may be absent (Python's `None`). */
  datatype Option<+T> = None | Some(value: T)

  /** The outcome of an operation that either produces a value or raises. */
  datatype Result<+T, +E> = Ok(value: T) | Err(error: E) {

    predicate IsFailure() {
      Err?
    }

    function PropagateFailure<U>(): Result<U, E>
      requires Err?
    {
      Err(error)
    }

    function Extract(): T
      requires Ok?
    {
      value
    }
  }
}

/** The exceptions the driver raises, identified by kind only. */
module Errors {

  datatype Error =
    | LoginDetailsMissing   // "Login details are not defined"
    | BadAddress            // an address that does not split into exactly three '/' segments
    | NameMismatch          // a port name the active pattern does not match (`None.lstrip`)
    | NotFound              // the device has no port or filter under the requested key
    | NullIdentifier        // "Port uuid cannot be None"
    | PortsNotDefined       // "Ports are not defined."
}
