/** Optional results: the library signals an invalid operation by returning null. */
module Wrappers {

  /** `None` stands for the library's null result, `Some(v)` for a value. */
  datatype Option<+T> = None | Some(value: T)
}
