/** Optional values, used for Go's nil pointers and for the "no error" case of an error return. */
module Wrappers {

  datatype Option<+T> = None | Some(value: T)
}
