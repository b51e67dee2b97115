/** The nullable references of the original code, as an explicit Option. */
module Wrappers {

  /** `None` stands for a Java `null`, `Some(v)` for a non-null value. */
  datatype Option<+T> = None | Some(value: T)
}
