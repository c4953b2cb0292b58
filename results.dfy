/** Failure-carrying values shared by the roster model. */
module Results {

  /** A value or its absence: Python's `None` return, or an exception raised
      by a parser such as `int('')`. */
  datatype Option<+T> = None | Some(value: T)

  /** How a Python call ends: it returns a value, or an exception escapes it. */
  datatype Outcome<+T> = Returned(value: T) | Raised
}
