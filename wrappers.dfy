/** The stand-in for JavaScript's `null`: a value that may be missing. */
module Wrappers {

  datatype Option<+T> = None | Some(value: T)
}
