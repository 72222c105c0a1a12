/** The optional value used wherever the source may produce `undefined` or `null`. */
module Options {

  datatype Option<+T> = None | Some(value: T)
}
