/** An optional value: a null task pointer, an empty std::optional, a search that finds nothing. */
module Options {
  datatype Option<+T> = None | Some(value: T)
}
