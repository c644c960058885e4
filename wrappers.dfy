/** Option and Result, with the `:-` failure-propagation members. */
module Wrappers {

  datatype Option<+T> = None | Some(value: T)

  datatype Result<+T, +E> = Ok(value: T) | Err(error: E) {

    predicate IsFailure() {
      Err?
    }

    function PropagateFailure<U>(): Result<U, E>
      requires Err?
    {
      Err(error)
    }

    function Extract(): T
      requires Ok?
    {
      value
    }
  }
}

/** The .NET exceptions the core can raise and that decide what happens next. */
module Runtime {

  datatype Fault =
    | IndexOutOfRange   // an array index past the end (too few line tokens, too many board tokens)
    | NullReference     // the board grid was never allocated
    | ArgumentNull      // a null dictionary key (an unset cell or an unset player id)
    | KeyNotFound       // a dictionary lookup of an absent key
    | Overflow          // an array allocated with a negative dimension
}
