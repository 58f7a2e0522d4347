/** The optional value used wherever the source returns a nullable reference or `T?`. */
module Wrappers {
  datatype Option<+T> = None | Some(value: T)
}
