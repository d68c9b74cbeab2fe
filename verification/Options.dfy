/** The optional value used where the source has `std::optional`. */
module Options {
  datatype Option<+T> = None | Some(value: T)
}
