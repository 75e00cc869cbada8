/** The value that may be missing: a `None` of the modelled programs, or an exception without its text. */
module Wrappers {
  datatype Option<+T> = None | Some(value: T)
}
