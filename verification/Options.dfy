/** Values that may be missing: Python's `None`, and the result of a partial operation. */
module Options {
  datatype Option<+T> = None | Some(value: T)
}
