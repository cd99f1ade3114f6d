/** The usual optional value, for the program's `Option<T>`. */
module Wrappers {
  datatype Option<+T> = None | Some(value: T)
}
