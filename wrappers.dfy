/** The optional value used wherever the source has a Rust `Option`. */
module Wrappers {

  datatype Option<+T> = None | Some(value: T)
}
