/** The optional value used for oracle replies that may be an exception. */
module Wrappers {
  datatype Option<+T> = None | Some(value: T)
}
