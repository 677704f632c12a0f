/** Optional values and outcomes that stand for Java's null and thrown exceptions. */
module Wrappers {

  /** A value that may be absent; `None` plays the part of Java's `null`. */
  datatype Option<+T> = None | Some(value: T)

  /** The Java exception that escapes an operation, by class. */
  datatype Fault =
    | IllegalArgument(message: string)
    | NullPointer
    | UnsupportedOperation(message: string)
    | Arithmetic
    | IndexOutOfBounds
    /** What an action whose code is not part of this model does: nothing is claimed about it. */
    | Unmodelled

  /** Either the value an operation returns or the exception it throws. */
  datatype Result<+T> = Ok(value: T) | Err(fault: Fault) {

    predicate IsFailure() {
      Err?
    }

    function PropagateFailure<U>(): Result<U>
      requires Err?
    {
      Err(fault)
    }

    function Extract(): T
      requires Ok?
    {
      value
    }
  }

  /** An operation with nothing to return that did not throw returned the one value of `()`. */
  lemma OkUnit(r: Result<()>)
    requires r.Ok?
    ensures r == Ok(())
  {
    match r.value {
      case () =>
    }
  }
}
