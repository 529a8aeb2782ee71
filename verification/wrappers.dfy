/** Optional values: Java's nullable references in the model. */
module Wrappers {

  datatype Option<+T> = None | Some(value: T)
}
