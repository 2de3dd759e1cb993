/** The usual optional value, used for JavaScript's `null`/`undefined`. */
module Options {
  datatype Option<+T> = None | Some(value: T)
}
