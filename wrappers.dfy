/** Option and Result, the two failure-carrying values the model uses for
    NULL values and for the -1 error returns of the C code. */
module Wrappers {

  datatype Option<T> = None | Some(value: T) {

    function GetOr(default: T): T {
      if Some? then value else default
    }

    function ToResult<E>(error: E): Result<T, E> {
      if Some? then Ok(value) else Err(error)
    }
  }

  datatype Result<T, E> = Ok(value: T) | Err(error: E) {

    predicate IsFailure() {
      Err?
    }

    function PropagateFailure<U>(): Result<U, E>
      requires Err?
    {
      Err(error)
    }

    function Extract(): T
      requires Ok?
    {
      value
    }
  }
}
