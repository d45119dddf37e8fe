/** The optional value used for results that may be absent, such as a failed parse. */
module Wrappers {
  datatype Option<+T> = None | Some(value: T)
}
