/** Values shared by every component: Java's null becomes None, and the
    exceptions the components throw become Error values carrying the
    exception's class, and its message where the code writes one. */
module Outcomes {

  datatype Option<+T> = None | Some(value: T)

  /** The exception classes thrown by the components. */
  datatype Error =
    | IllegalArgument(message: string)
    | IllegalState(message: string)
    | Runtime(message: string)
    | UnsupportedOperation(message: string)
    | UncheckedIO  // wraps an IOException, whose message is not modelled
    | NullPointer  // the JVM's own message is not modelled

  datatype Result<+T> = Ok(value: T) | Err(error: Error)

  /** The outcome of an operation that returns nothing (a Java void method). */
  datatype Outcome = Pass | Fail(error: Error)
}
