/** Transaction inputs as the blackball and the usage tool read them. */
module TxInputs {
  import opened SharedTypes
  import opened RingOffsets

  datatype TxIn =
    | ToKey(amount: U64, keyOffsets: seq<U64>, image: KeyImage)
    | Gen
    | Other

  /** Whether a tool that may be told to look only at RingCT inputs looks at this one. */
  predicate Considered(txin: TxIn, rctOnly: bool) {
    txin.ToKey? && !(rctOnly && txin.amount != 0)
  }
}
