/** A value that may be absent: an optional argument, a nullable column, a missing key. */
module Wrappers {

  datatype Option<+T> = None | Some(value: T)
}
