/** A value that may be absent: the model of a pointer that may be NULL. */
module Options {
  datatype Option<T> = None | Some(value: T)
}
