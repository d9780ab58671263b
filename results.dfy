/** Failure-aware return values standing in for the exceptions of the shop. */
module Results {

  /** What an operation gives back when it may `throw new Error(message)`:
      either its value or the message of the error it throws. */
  datatype Result<T> = Ok(value: T) | Err(message: string)

  /** A value that may be absent (an unset static field). */
  datatype Option<T> = None | Some(value: T)
}
