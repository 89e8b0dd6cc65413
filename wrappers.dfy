/** Optional values, standing in for Java's `Optional` and for references that may be null. */
module Wrappers {

  datatype Option<+T> = None | Some(value: T)
}
