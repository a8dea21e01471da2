/** Shared result types: a value that may be absent, and a computation that may throw. */
module Options {

  datatype Option<+T> = None | Some(value: T)

  /** `Err` stands for a thrown exception or an error return of the modelled code. */
  datatype Result<+T, +E> = Ok(value: T) | Err(error: E) {
    predicate IsFailure() { Err? }

    function PropagateFailure<U>(): Result<U, E>
      requires Err?
    {
      Err(error)
    }

    function Extract(): T
      requires Ok?
    {
      value
    }
  }
}
