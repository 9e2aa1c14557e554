module Wrappers {
  /** A pointer that may be NULL, as a value. */
  datatype Option<+T> = None | Some(value: T)
}
