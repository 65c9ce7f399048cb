/** Return codes of the C interfaces as values: a result carries either what the call
    computed or the error it returned. */
module Results {

  datatype Option<+T> = None | Some(value: T)

  datatype Error = Argument | Range | Capacity | Format | Integrity | Replay | Crypto

  datatype Result<+T> = Ok(value: T) | Err(error: Error) {
    predicate IsFailure() { Err? }

    function PropagateFailure<U>(): Result<U>
      requires Err?
    {
      Err(error)
    }

    function Extract(): T
      requires Ok?
    {
      value
    }
  }

  /** Status of a call whose outputs are written through its arguments. */
  datatype Status = Success | Failure(error: Error)
}
