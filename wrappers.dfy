/** Optional values: java.util.Optional and nullable references of the source. */
module Wrappers {

  datatype Option<+T> = None | Some(value: T)
}
