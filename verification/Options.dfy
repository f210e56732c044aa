/** Shared value types. */
module Options {
  /** A value that may be absent: a nil reference, an unset message field, a missing row. */
  datatype Option<+T> = None | Some(value: T)
}
