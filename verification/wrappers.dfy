/** Optional values, shared by the command parser and the timer library. */
module Wrappers {

  /** A value that may be absent: a failed conversion, or a pointer not
      yet attached. */
  datatype Option<T> = None | Some(value: T)
}
