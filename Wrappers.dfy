/** The optional value used for the outcome of reading and decoding a request body. */
module Wrappers {

  datatype Option<+T> = None | Some(value: T)
}
