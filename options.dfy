/** The optional value used for JavaScript's `null`/`undefined` and for absent attributes. */
module Options {
  datatype Option<+T> = None | Some(value: T)
}
