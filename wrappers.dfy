/** Small failure-carrying datatypes shared by the modules of the model. */
module Wrappers {

  datatype Option<+T> = None | Some(value: T)

  /** An operation that either completes or reports why it did not. */
  datatype Outcome<+E> = Pass | Fail(error: E)
}
