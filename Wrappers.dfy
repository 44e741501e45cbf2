/** The Some/None datatype that stands for a nullable reference. */
module Wrappers {

  /** `None` plays the part of `null`; `Some(v)` a present value. */
  datatype Option<+T> = None | Some(value: T)
}
