/** Failure-compatible wrappers shared by the other modules. */
module Options {

  /** A value that may be absent: a regex search that found nothing, a line that does not parse. */
  datatype Option<+T> = None | Some(value: T)

  /** The outcome of a run: its value, or the error that ended it. */
  datatype Result<+T, +E> = Success(value: T) | Failure(error: E)
}
