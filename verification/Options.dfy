/** A value that may be missing: a null pointer, or a call that reports nothing. */
module Options {

  datatype Option<T> = None | Some(value: T)
}
