/** The absent-or-present value returned by the log file path parser. */
module Options {

  datatype Option<+T> = None | Some(value: T)
}
