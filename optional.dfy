/** Python's `None`-or-value and exception-or-value results. */
module Optional {

  /** A value that may be Python's `None`. */
  datatype Option<T> = None | Some(value: T)

  /** A normal return (`Ok`) or an exception that escapes the call (`Err`). */
  datatype Result<T, E> = Ok(value: T) | Err(error: E)
}
