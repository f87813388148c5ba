/** The optional value used for JavaScript's `null`/`undefined` and for calls that may throw. */
module Optional {
  datatype Option<+T> = None | Some(value: T)
}
