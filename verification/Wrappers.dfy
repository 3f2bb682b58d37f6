/** An optional value: the model's form of a null pointer, an unset environment
    variable, or an empty std::optional. */
module Wrappers {
  datatype Option<+T> = None | Some(value: T)
}
