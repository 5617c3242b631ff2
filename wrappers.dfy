/** Optional values (Java's nullable references, `Optional`) and results of
    operations that may raise one of the handled exceptions. */
module Wrappers {

  /** `None` stands for a Java `null` or an empty `Optional`. */
  datatype Option<+T> = None | Some(value: T)

  /** `Err` stands for an exception thrown by the operation. */
  datatype Result<+T, +E> = Ok(value: T) | Err(error: E)
}
