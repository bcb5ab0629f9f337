/** Option and Result, shared by the patch parser and the graph builder. */
module Common {

  /** A value that may be missing: `undefined`, `NaN` or a failed lookup in the program. */
  datatype Option<+T> = None | Some(value: T)

  /** The outcome of an operation that throws in the program. */
  datatype Result<+T, +E> = Ok(value: T) | Err(error: E)
}
