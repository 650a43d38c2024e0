/** Optional and result values shared by the catalog model. */
module Wrappers {

  /** An optional value; `None` plays the role of Java's `null` and of an empty `Optional`. */
  datatype Option<+T> = None | Some(value: T)

  /** The outcome of an operation that the Java code ends by throwing a `RuntimeException`. */
  datatype Result<+R, +E> = Success(value: R) | Failure(error: E)
}
