/** Failure-carrying values shared by the driver model. */
module Results {

  /** A value that may be absent. */
  datatype Option<T> = None | Some(value: T)

  /** The `Result<T, E>` of Rust: a success value or an error value. */
  datatype Result<T, E> = Ok(value: T) | Err(error: E)

  /** Whether an operation returned normally or panicked with a message. */
  datatype Outcome = Continue | Panic(message: string)
}
