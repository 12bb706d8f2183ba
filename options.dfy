/** The conventional optional value, standing for Rust's `Option`. */
module Options {
  datatype Option<+T> = None | Some(value: T)
}
