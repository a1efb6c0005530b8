/** Failure-carrying values used in place of the source's exceptions and
    of its `None` / missing-key cases. */
module Wrappers {

  /** A value that may be absent (Python's `Optional[...]`, or a missing dict key). */
  datatype Option<T> = None | Some(value: T)

  /** The outcome of a call that either returns a value or raises. */
  datatype Result<T, E> = Success(value: T) | Failure(error: E)

  /** The outcome of a check that either passes silently or raises. */
  datatype Outcome<E> = Pass | Fail(error: E)
}
