/** An optional value: the model of a JavaScript value that may be `null` or `undefined`. */
module Options {

  datatype Option<+T> = None | Some(value: T)
}
