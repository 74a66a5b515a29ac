/** A value that may be missing, shared by the other modules. */
module Options {
  datatype Option<T> = None | Some(value: T)
}
