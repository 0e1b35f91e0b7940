/** The exceptions of the JSON library, and a result type for operations that may throw one. */
module Outcomes {

  /** One constructor per exception class; `id` is the library's numeric exception id.
      `AssertionFailure` is a tripped `JSON_ASSERT`. */
  datatype Error =
    | ParseError(id: int)
    | TypeError(id: int)
    | OutOfRange(id: int)
    | OtherError(id: int)
    | AssertionFailure

  datatype Option<+T> = None | Some(value: T)

  datatype Result<+T> = Ok(value: T) | Err(error: Error) {
    predicate IsFailure() {
      Err?
    }

    function PropagateFailure<U>(): Result<U>
      requires Err?
    {
      Err(error)
    }

    function Extract(): T
      requires Ok?
    {
      value
    }
  }
}
