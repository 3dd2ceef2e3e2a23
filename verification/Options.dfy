/** A value that may be missing: a null pointer, a missing key, a nil. */
module Options {
  datatype Option<T> = None | Some(value: T)
}
