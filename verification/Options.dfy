module Options {

  /** A value that may be absent, as a nil pointer or a missing result is in the source. */
  datatype Option<T> = None | Some(value: T)
}
