/** The Option datatype used in place of Java's `null` results. */
module Wrappers {

  /** `None` stands for a Java `null`; `Some(v)` for a present value. */
  datatype Option<+T> = None | Some(value: T)
}
