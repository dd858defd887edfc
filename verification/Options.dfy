/** A value that may be missing: an empty std::optional, a null pointer, None. */
module Options {
  datatype Option<T> = None | Some(value: T)
}
