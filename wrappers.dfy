/** Rust's `Option<T>`, as returned by `next` and `next_back` and held by `size_hint`. */
module Wrappers {

  datatype Option<+T> = None | Some(value: T)
}
