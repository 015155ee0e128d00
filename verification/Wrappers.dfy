/** The optional value used across the models, for null pointers and `std::nullopt`. */
module Wrappers {
  datatype Option<+T> = None | Some(value: T)
}
