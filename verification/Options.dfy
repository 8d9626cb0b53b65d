/** A value, or the absence of one: a pointer that may be NULL. */
module Options {

  datatype Option<T> = None | Some(value: T)
}
