/** A value that may be missing: JavaScript's `undefined`. */
module Options {

  datatype Option<+T> = None | Some(value: T)
}
