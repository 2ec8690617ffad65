/** Failure-carrying wrappers shared by every module of the model. */
module Common {

  /** A Java reference that may be null. */
  datatype Option<T> = None | Some(value: T)

  /** The unchecked Java exceptions the modelled code can raise, plus the
      divergence of a router loop that ran out of its iteration bound. */
  datatype Fault = IndexOutOfBounds | NullPointer | Diverged

  /** How a Java call ends: it returns a value or it throws. */
  datatype Outcome<T> = Returned(value: T) | Threw(fault: Fault)
}
