/** Values that may be missing, and results that may be refused. */
module Wrappers {

  datatype Option<+T> = None | Some(value: T)

  datatype Result<+T> = Ok(value: T) | Err {
    predicate IsFailure() { Err? }

    function PropagateFailure<U>(): Result<U> requires Err? { Err }

    function Extract(): T requires Ok? { value }
  }
}
