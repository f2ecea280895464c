/** An optional value: Python's `None` or a value, JavaScript's `undefined` or a value. */
module Options {

  datatype Option<T> = None | Some(value: T)
}
