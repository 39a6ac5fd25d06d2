/** A value that may be missing: a null pointer, a failed search, an unset option. */
module Options {
  datatype Option<T> = None | Some(value: T)
}
