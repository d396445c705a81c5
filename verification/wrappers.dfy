/** The usual optional-value datatype; `None` stands for the `null` a walker returns when it is stuck. */
module Wrappers {

  datatype Option<+T> = None | Some(value: T)
}
