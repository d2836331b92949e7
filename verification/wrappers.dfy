/** The optional-value datatype used where the scripts may or may not produce a value. */
module Wrappers {

  datatype Option<+T> = None | Some(value: T)
}
