/** Small shared datatypes. */
module Common {

  /** A value that may be absent: a missing DOM node, a failed lookup, no command issued. */
  datatype Option<+T> = None | Some(value: T)
}
