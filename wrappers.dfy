/** Optional values: Java's `Optional<T>` and nullable references. */
module Wrappers {

  datatype Option<+T> = None | Some(value: T)
}
