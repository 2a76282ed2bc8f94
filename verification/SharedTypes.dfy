/** Identifiers that the programs only ever compare, and outcome types. */
module SharedTypes {
  datatype KeyImage = KeyImage(id: int)

  datatype Hash = Hash(id: int)

  datatype PublicKey = PublicKey(id: int)

  /** A commitment found in a transaction, or the one with identity mask that
      the store computes for a coinbase amount. */
  datatype Commitment = Mask(id: int) | ZeroCommit(amount: nat)

  datatype Option<+T> = None | Some(value: T) {
    predicate IsFailure() { None? }

    function PropagateFailure<U>(): Option<U>
      requires None?
    {
      None
    }

    function Extract(): T
      requires Some?
    {
      value
    }
  }

  datatype Result<+T, +E> = Ok(value: T) | Err(error: E) {
    predicate IsFailure() { Err? }

    function PropagateFailure<U>(): Result<U, E>
      requires Err?
    {
      Err(error)
    }

    function Extract(): T
      requires Ok?
    {
      value
    }
  }
}
