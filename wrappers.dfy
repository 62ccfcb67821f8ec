// Optional values and outcomes shared by every module of the model.
module Wrappers {
  /** A value that may be absent: a Java reference that may be null, an
      Optional<T>, or a lookup that found nothing. */
  datatype Option<T> = None | Some(value: T)

  /** The outcome of a Java call that either returns a value or throws. */
  datatype Result<T> = Success(value: T) | Failure(error: string)
}
