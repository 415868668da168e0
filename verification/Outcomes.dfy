/** Values that may be absent and calls that may raise. */
module Outcomes {
  datatype Option<+T> = None | Some(value: T)

  datatype Try<+T> = Raised | Returned(value: T)
}
