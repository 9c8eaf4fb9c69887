/** Absent-or-present values and results, for Go's nil pointers, missing map entries and error returns. */
module Options {
  datatype Option<+T> = None | Some(value: T)

  datatype Result<+T, +E> = Ok(value: T) | Err(error: E)
}
