/** The optional value used throughout the model, Rust's `Option`. */
module Wrappers {
  datatype Option<+T> = None | Some(value: T)
}
