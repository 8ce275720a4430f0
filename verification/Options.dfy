/** A column that may be NULL, or a query that may find nothing. */
module Options {
  datatype Option<+T> = None | Some(value: T)
}
