/** An optional value: a result that may be absent, such as a letter a sampler did not write. */
module Options {
  datatype Option<+T> = None | Some(value: T)
}
