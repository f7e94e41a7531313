/** Values that may be absent. */
module Options {
  datatype Option<+T> = None | Some(value: T)

  function Or<T>(option: Option<T>, otherwise: T): T {
    match option case Some(v) => v case None => otherwise
  }
}
