/** The usual optional-value datatype, for JavaScript values that may be absent. */
module Wrappers {

  datatype Option<+T> = None | Some(value: T)
}
