/** Failure-carrying wrappers shared by every module of the model. */
module Results {

  /** A value that may be missing (a Go nil pointer, an absent map key). */
  datatype Option<+T> = None | Some(value: T)

  /** The `(value, error)` pair of a Go function, with exactly one side present. */
  datatype Result<+T, +E> = Ok(value: T) | Err(error: E) {

    /** Keeps a success, rewraps a failure. */
    function MapErr<E2>(wrap: E -> E2): Result<T, E2> {
      match this
      case Ok(v) => Ok(v)
      case Err(e) => Err(wrap(e))
    }
  }
}
