/** Optional values shared by the other modules. */
module Wrappers {

  /** `Some(v)` for a present value, `None` for an absent one or for a call that raised. */
  datatype Option<+T> = None | Some(value: T)
}
