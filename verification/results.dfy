/** Failure-carrying values shared by every module: Go's `(value, error)` pairs
    become `Result`, and optional values (a nil error, a missing match) become `Option`. */
module Results {

  /** The conventional Some/None datatype. */
  datatype Option<+T> = None | Some(value: T)

  /** A value, or the text of the error Go would have returned instead. */
  datatype Result<+T> = Ok(value: T) | Err(error: string) {

    predicate IsFailure() {
      Err?
    }

    function PropagateFailure<U>(): Result<U>
      requires Err?
    {
      Err(error)
    }

    function Extract(): T
      requires Ok?
    {
      value
    }
  }
}
