module Options {
  /** A value that may be missing: `None`, `null`, or an absent key in the source. */
  datatype Option<+T> = None | Some(value: T)
}
