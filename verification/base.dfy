/** Failure-compatible wrappers shared by every module of the model. */
module Base {

  /** A value that may be absent; stands for Python's `None`. */
  datatype Option<+T> = None | Some(value: T)

  /** Why a parse or summary was abandoned. Each case is a Python exception
      the source lets escape. */
  datatype Error =
    | MalformedAmount(token: string)   // float() raised ValueError on this token
    | NoOpeningBalance                 // `saldo - previous_saldo` with previous_saldo still None (TypeError)
    | MissingColumn                    // indexing the 'Importe' column of a frame with no columns (KeyError)
    | NoMovementRows                   // `.iloc[-1]` on an empty selection (IndexError)

  /** Either a value or the error that aborted the computation; usable with `:-`. */
  datatype Result<+T> = Ok(value: T) | Err(error: Error) {
    predicate IsFailure() { Err? }

    function PropagateFailure<U>(): Result<U>
      requires Err?
    {
      Err(error)
    }

    function Extract(): T
      requires Ok?
    {
      value
    }
  }

  /** Turns an absent parse into the error naming the offending token. */
  function Need<T>(o: Option<T>, token: string): (r: Result<T>)
    ensures r.Ok? <==> o.Some?
    ensures r.Ok? ==> r.value == o.value
    ensures r.Err? ==> r.error == MalformedAmount(token)
  {
    match o
    case Some(v) => Ok(v)
    case None => Err(MalformedAmount(token))
  }
}
