/** A value that may be absent: a display surface that was not found, a timer that is not armed. */
module Wrappers {
  datatype Option<+T> = None | Some(value: T)
}
