/** Optional and failure-carrying values: a Java reference that may be null becomes an
    `Option`, and a call that either returns or throws becomes a `Result`. */
module Wrappers {

  /** `None` stands for Java's `null`. */
  datatype Option<+T> = None | Some(value: T)

  /** `Failure` stands for an exception thrown instead of a returned value. */
  datatype Result<+R, +E> = Success(value: R) | Failure(error: E)
}
