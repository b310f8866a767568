/** An optional value: the one wrapper the model needs. */
module Wrappers {

  /** A value that may be absent: a token that does not exist, a job that was never configured. */
  datatype Option<+T> = None | Some(value: T)
}
