/** An optional value, for objects that may be built without a space. */
module Wrappers {
  datatype Option<T> = None | Some(value: T)
}
