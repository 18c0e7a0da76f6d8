/** `Option`: a value or none. */
module Wrappers {

  /** `None` stands for a missing value (for instance `parseInt` returning NaN). */
  datatype Option<+T> = None | Some(value: T)
}
