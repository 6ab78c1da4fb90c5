/** Outcomes of the Python calls that can raise: the exception kinds the modelled
    code raises, an optional value for keyword-style defaults of `None`, and a
    failure-compatible Result so that `:-` propagates a raised exception. */
module Outcomes {

  /** The Python exceptions the modelled code can raise. */
  datatype Error =
    | ValueError(message: string)
    | TypeError(message: string)
    | ZeroDivisionError

  /** A keyword argument that defaults to `None`. */
  datatype Option<T> = None | Some(value: T)

  /** A call that either returns normally or raises. */
  datatype Result<T> = Ok(value: T) | Err(error: Error) {

    predicate IsFailure() {
      Err?
    }

    function PropagateFailure<U>(): Result<U>
      requires Err?
    {
      Err(error)
    }

    function Extract(): T
      requires Ok?
    {
      value
    }
  }
}
