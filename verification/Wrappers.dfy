module Wrappers {
  datatype Option<+T> = None | Some(value: T)

  /** The name of a proxy or of a group, compared as a whole. */
  datatype Name = Name(text: string)
}
