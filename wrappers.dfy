/** Small helper datatypes shared by the game engine and the game registry. */
module Wrappers {

  /** A value that may be absent: Python's None, or a sign not yet assigned. */
  datatype Option<T> = None | Some(value: T)
}
