/** An optional value: a form field left blank is `None`. */
module Options {
  datatype Option<T> = None | Some(value: T)
}
