/** A value that may be missing: null, a field that is not set, an empty result. */
module Options {
  datatype Option<T> = None | Some(value: T)
}
