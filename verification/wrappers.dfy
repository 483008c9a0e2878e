/** An optional value, for results that the source leaves unassigned on some paths. */
module Wrappers {
  datatype Option<T> = None | Some(value: T)
}
