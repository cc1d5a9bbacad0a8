/** The optional value used wherever the compiler has a Java `null`. */
module Wrappers {
  datatype Option<T> = None | Some(value: T)
}
