/** Failure-compatible wrappers shared by the request pipeline. */
module Results {

  /** A value that may be absent, as `request.form.get` returns `None` for a missing field. */
  datatype Option<T> = None | Some(value: T)

  /** The outcome of a step that either produces a value or raises. */
  datatype Result<T, E> = Ok(value: T) | Err(error: E)
}
