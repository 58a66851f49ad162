module Options {
  datatype Option<+T> = None | Some(value: T)

  /** The value, if there is one, as a list. */
  function Listed<T>(x: Option<T>): seq<T> {
    match x
    case None => []
    case Some(value) => [value]
  }
}
