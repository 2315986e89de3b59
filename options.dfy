/** The usual optional-value wrapper: a command or a parse that can fail yields None. */
module Options {
  datatype Option<T> = None | Some(value: T)
}
