/** A value that may be absent: the source's undefined, null and false. */
module Wrappers {
  datatype Option<+T> = None | Some(value: T)
}
