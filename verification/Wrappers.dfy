/** The optional value used throughout the model in place of `std::optional` and of
    the source's `Result` type, whose error texts are not modelled. */
module Wrappers {

  datatype Option<+T> = None | Some(value: T)
}
