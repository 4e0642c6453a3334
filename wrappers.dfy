/** A value that may be absent: a storage key that is not set, a DOM query that finds nothing. */
module Wrappers {

  datatype Option<T> = None | Some(value: T)
}
