/** The optional-value datatype used for "no token" and "no conversion". */
module Wrappers {

  datatype Option<+T> = None | Some(value: T)
}
