/** The optional value used wherever the source has a `nullptr` or a `npos` result. */
module Options {

  datatype Option<+T> = None | Some(value: T)
}
