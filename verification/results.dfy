/** Failure-compatible result type used by every fallible operation of the
    virtual machine (the source's `Result<_, String>`, with the error string
    replaced by a typed error). */
module Results {

  datatype Result<+T, +E> = Ok(value: T) | Err(error: E) {

    predicate IsFailure() {
      Err?
    }

    function PropagateFailure<U>(): Result<U, E>
      requires Err?
    {
      Err(error)
    }

    function Extract(): T
      requires Ok?
    {
      value
    }
  }
}
