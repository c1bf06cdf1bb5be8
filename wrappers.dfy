/** The optional value that the renderer's queries return (Rust's `Option`). */
module Wrappers {
  datatype Option<+T> = None | Some(value: T)
}
