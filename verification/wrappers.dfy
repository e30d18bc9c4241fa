/** An optional value, for a step of the program that may not happen. */
module Wrappers {

  /** `None` marks a construction or a build that did not take place. */
  datatype Option<+T> = None | Some(value: T)
}
