/** Failure-compatible optional values, used for the outcome of the foreign evaluator. */
module Wrappers {

  /** `Some(v)` when a computation produced `v`, `None` when it threw. */
  datatype Option<+T> = None | Some(value: T)
}
