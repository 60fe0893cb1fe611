/** Option, standing for Java's nullable values. */
module Wrappers {

  /** `None` stands for Java's `null`, `Some(v)` for a present value. */
  datatype Option<+T> = None | Some(value: T)
}
