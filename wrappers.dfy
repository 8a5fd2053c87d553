/** The optional value used where the scanner's library calls can raise. */
module Wrappers {

  datatype Option<+T> = None | Some(value: T)
}
