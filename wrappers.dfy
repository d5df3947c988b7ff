/** An optional value: the model's form of a C reference that may be NULL. */
module Wrappers {
  datatype Option<T> = None | Some(value: T)
}
