/** Small shared datatypes. */
module Wrappers {
  /** A pointer that may be null, an output that may be absent, a lookup that may fail. */
  datatype Option<+T> = None | Some(value: T)
}
