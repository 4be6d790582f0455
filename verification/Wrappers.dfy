/** The result types the models share. */
module Wrappers {

  datatype Option<+T> = None | Some(value: T)

  datatype Result<+T, +E> = Success(value: T) | Failure(error: E)

  /** How a method of one of the two programs ended: normally, in a wait that nothing will end, or by a throw. */
  datatype Outcome<+P, +F> = Ended | Blocked(at: P) | Threw(fault: F)
}
