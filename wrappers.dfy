/** The optional value used wherever the C code returns or stores an address that may be NULL. */
module Wrappers {

  datatype Option<+T> = None | Some(value: T)
}
