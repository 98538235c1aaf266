/** Failure-carrying datatypes shared by the whole model. */
module Wrappers {

  datatype Option<+T> = None | Some(value: T)

  /** The outcome of a foreign call that yields a value or an error. */
  datatype Result<+T, +E> = Ok(value: T) | Err(error: E) {
    /** Forgets the value, keeping only whether the call failed. */
    function ToOutcome(): Outcome<E> {
      match this
      case Ok(_) => Pass
      case Err(e) => Fail(e)
    }
  }

  /** The outcome of a foreign call that yields only an error (Go's bare `error`). */
  datatype Outcome<+E> = Pass | Fail(error: E)
}
