/** Failure-carrying datatypes shared by the whole model. */
module Base {

  /** A value that may be absent: JavaScript's `null`/`undefined`, Rust's `Option`. */
  datatype Option<+T> = None | Some(value: T)

  /** The outcome of an operation that can fail: Rust's `Result`, or a thrown JavaScript error. */
  datatype Result<+T, +E> = Ok(value: T) | Err(error: E)
}
