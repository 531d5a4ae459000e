/** The optional value used wherever the source reads a missing key as `undefined`. */
module Wrappers {

  datatype Option<T> = None | Some(value: T)
}
