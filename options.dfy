/** The optional value used for empty slots and failed searches. */
module Options {
  datatype Option<+T> = None | Some(value: T)
}
