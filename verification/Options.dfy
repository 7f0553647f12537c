/** The optional values that `boost::optional` and C++ exceptions stand for in the source. */
module Options {
  datatype Option<+T> = None | Some(value: T)
}
