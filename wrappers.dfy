/** Option and Result, used for Java's null and for the exceptions the
    source throws on its error paths. */
module Wrappers {

  /** `None` stands for Java's `null`. */
  datatype Option<+T> = None | Some(value: T)

  /** `Err` stands for an exception the operation throws. */
  datatype Result<+T, +E> = Ok(value: T) | Err(error: E)
}
