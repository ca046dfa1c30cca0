/** The optional value used wherever the service says `X | None`. */
module Options {
  datatype Option<+T> = None | Some(value: T)
}
