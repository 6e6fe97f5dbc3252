/** Outcomes of the engine's operations: the Java exceptions the core throws, and an
    Option for the references that may be null. */
module Exceptions {

  /** The exceptions the core raises, named after the Java classes it throws. */
  datatype Exception =
    | IllegalArgument   // a rate, precision or boost below its minimum
    | NullPointer       // a view or dialog name that is not registered
    | Security          // unregistering the entity that is currently shown

  /** Normal completion of a void operation, or the exception it threw. */
  datatype Outcome = Normal | Thrown(error: Exception)

  /** A reference that may be null (None), or a Java method result that may be null. */
  datatype Option<+T> = None | Some(value: T)
}
