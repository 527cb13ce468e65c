/** A value that may be absent: an empty channel of capacity one, a missing error, an unset field. */
module Wrappers {

  datatype Option<+T> = None | Some(value: T)
}
