// Optional values, shared by every module of the model.

module Wrappers {
  /** A value that may be absent: a missing field, a failed lookup, `npos`, a null pointer. */
  datatype Option<T> = None | Some(value: T)
}
