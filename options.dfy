/** The optional value used wherever the source returns `null`/`undefined` or looks up a key that may be missing. */
module Options {
  datatype Option<+T> = None | Some(value: T)
}
