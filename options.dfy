/** The usual optional value: `None` is an absent result, a failed construction or a failed read. */
module Options {
  datatype Option<+T> = None | Some(value: T)
}
