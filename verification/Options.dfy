/** The absent-or-present value used for nullable columns and missing dictionary entries. */
module Options {
  datatype Option<+T> = None | Some(value: T)
}
