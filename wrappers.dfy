/** The optional value used wherever the system's Python code may find nothing. */
module Wrappers {
  datatype Option<+T> = None | Some(value: T)
}
