/** Optional values and failure-carrying results shared by every module.
    `Option` stands for Python's `None`-or-value; `Result` for a value or a
    raised exception. */
module Outcomes {

  datatype Option<+T> = None | Some(value: T) {
    /** The value, or `default` when absent (Python's `dict.get(key, default)`). */
    function GetOr(default: T): T {
      match this
      case Some(v) => v
      case None => default
    }
  }

  datatype Result<+T, +E> = Ok(value: T) | Err(error: E) {
    predicate IsFailure() {
      Err?
    }

    function PropagateFailure<U>(): Result<U, E>
      requires Err?
    {
      Err(error)
    }

    function Extract(): T
      requires Ok?
    {
      value
    }
  }

  /** The exceptions the valuation engine can raise. */
  datatype Fault =
    | ValuationError(message: string)   // the module's own ValuationError
    | MissingKey(key: string)           // a KeyError from `data[key]`
    | ZeroDivision                      // Python's ZeroDivisionError on a float division
}
