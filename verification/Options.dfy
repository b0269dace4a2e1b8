/** A value that may be missing: a null pointer, an empty optional, a failed lookup. */
module Options {
  datatype Option<+T> = None | Some(value: T)
}
