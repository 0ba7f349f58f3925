/** Failure values of the translator. The Java code throws unchecked
    exceptions; each one becomes an `Err` carrying the exception kind and
    the message text the source builds. */
module Results {

  datatype Error =
    | IllegalArgument(message: string)   // IllegalArgumentException
    | IllegalState(message: string)      // IllegalStateException
    | NumberFormat(input: string)        // NumberFormatException from Integer.parseInt
    | IndexOutOfBounds                   // array or list index past the end

  datatype Option<+T> = None | Some(value: T)

  datatype Result<+T> = Ok(value: T) | Err(error: Error) {

    predicate IsFailure() {
      Err?
    }

    function PropagateFailure<U>(): Result<U>
      requires Err?
    {
      Err(error)
    }

    function Extract(): T
      requires Ok?
    {
      value
    }
  }
}
