/** Option and Result, the two failure-compatible wrappers the model uses in
    place of Python's exceptions (StopIteration, ParseError, ValueError). */
module Wrappers {

  datatype Option<+T> = None | Some(value: T)

  /** Either a value or the error the source would raise. Usable with `:-`. */
  datatype Result<+T, +E> = Ok(value: T) | Err(error: E) {

    predicate IsFailure() {
      Err?
    }

    function PropagateFailure<U>(): Result<U, E>
      requires Err?
    {
      Err(error)
    }

    function Extract(): T
      requires Ok?
    {
      value
    }
  }
}
