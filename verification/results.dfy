/** Option and Result values used wherever the original code returns `undefined`/`null` or throws. */
module Results {

  datatype Option<+T> = None | Some(value: T)

  /** `Err` stands for an exception thrown by the original code, `Ok` for a normal return. */
  datatype Result<+T, +E> = Ok(value: T) | Err(error: E)

  /** The `void` return of an operation that may throw. */
  datatype Unit = Unit

  /** The `TypeError` thrown by calling `undefined` as a function. */
  datatype TypeError = UndefinedCalled
}
