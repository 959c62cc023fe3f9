/** An optional value: an environment variable that may be unset, a call that may hand nothing out. */
module Options {
  datatype Option<+T> = None | Some(value: T)
}
