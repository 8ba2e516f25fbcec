/** A value that may be missing: Python's `None`, a nullable column, a refused result. */
module Options {

  datatype Option<+T> = None | Some(value: T)
}
