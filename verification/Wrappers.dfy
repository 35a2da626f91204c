/** A value that may be absent: a null pointer, a lookup that finds nothing, no player at all. */
module Wrappers {

  datatype Option<+T> = None | Some(value: T)
}
