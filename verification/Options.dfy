/** The optional value used wherever the source has null or undefined. */
module Options {
  datatype Option<+T> = None | Some(value: T)

  /** The source's `value || null`. */
  function OrNull(value: string): Option<string> {
    if value == "" then None else Some(value)
  }
}
