module Wrappers {
  datatype Option<+T> = None | Some(value: T)

  /** The source's error returns; `Panic` is a run-time fault that ends the process. */
  datatype Result<+T> = Ok(value: T) | Err | Panic {
    predicate IsFailure() {
      !Ok?
    }

    function PropagateFailure<U>(): Result<U>
      requires IsFailure()
    {
      if Err? then Err else Panic
    }

    function Extract(): T
      requires !IsFailure()
    {
      value
    }
  }
}
