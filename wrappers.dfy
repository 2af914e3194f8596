/** A value that may be absent: Java's `null` return, kept distinct from any stored string. */
module Wrappers {

  datatype Option<T> = None | Some(value: T)
}
