/** The optional value used throughout, for Go's `Nullable` and for absent results. */
module Options {
  datatype Option<+T> = None | Some(value: T)
}
