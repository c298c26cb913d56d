/** Optional values and call outcomes used throughout the model.
    - Option<T> stands for a Java reference that may be null.
    - Result<R, E> stands for a call that either returns or throws. */
module Wrappers {

  /** A Java reference: `None` is `null`. */
  datatype Option<+T> = None | Some(value: T)

  /** The outcome of a Java call that may throw. */
  datatype Result<+R, +E> = Success(value: R) | Failure(error: E)

  /** The exceptions the modelled code lets escape to its caller. */
  datatype Exception = NullPointer(site: string)
}
