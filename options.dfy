/** An optional value: a loaded file that may be missing, a dict that may be empty. */
module Options {
  datatype Option<T> = None | Some(value: T)
}
