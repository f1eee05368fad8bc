/** The optional value the sources spell `std::optional` or `None`. */
module Wrappers {
  datatype Option<+T> = None | Some(value: T)
}
