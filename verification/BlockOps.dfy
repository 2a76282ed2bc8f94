/** The operations of the block store as functions from tables to tables: adding
    and removing transactions, adding and popping blocks. */
module BlockOps {
  import opened SharedTypes
  import opened BlockTables

  // ---- Adding a transaction --------------------------------------------------

  /** Outcome of the loop over the inputs; each leaves tables behind. */
  datatype Inputs = Added(t: Tables, miner: bool) | Aborted(t: Tables) | Failed(t: Tables, error: Error)

  function AddInputs(t: Tables, vin: seq<TxIn>): (r: Inputs) {
    if vin == [] then Added(t, false)
    else
      var n := |vin| - 1;
      match AddInputs(t, vin[..n])
      case Added(u, miner) => AddInput(u, miner, vin[n])
      case stopped => stopped
  }

  function AddInput(t: Tables, miner: bool, txin: TxIn): (r: Inputs) {
    match txin
    case ToKey(k) =>
      (match AddSpentKey(t, k)
       case Ok(u) => Added(u, miner)
       case Err(e) => Failed(t, e))
    case Gen => Added(t, true)
    case Unsupported => Aborted(t)
  }

  /** Removes the key images of all inputs, whether or not they were added. */
  function RemoveSpentKeys(t: Tables, vin: seq<TxIn>): (r: Tables) {
    if vin == [] then t
    else
      var n := |vin| - 1;
      var u := RemoveSpentKeys(t, vin[..n]);
      if vin[n].ToKey? then RemoveSpentKey(u, vin[n].image) else u
  }

  /** The adding side's treatment of an output: as a RingCT output of amount 0
      in a version-2 transaction with a generating input. */
  predicate StoredAsRct(tx: Transaction, miner: bool) {
    miner && tx.version == 2
  }

  function StoredOut(tx: Transaction, miner: bool, i: nat): (o: TxOut)
    requires i < |tx.vout|
  {
    if StoredAsRct(tx, miner) then tx.vout[i].(amount := 0) else tx.vout[i]
  }

  function StoredCommitment(tx: Transaction, miner: bool, i: nat): (c: Option<Commitment>)
    requires i < |tx.vout|
  {
    if StoredAsRct(tx, miner) then Some(ZeroCommit(tx.vout[i].amount))
    else if tx.version > 1 then Some(tx.vout[i].mask)
    else None
  }

  function OutputOf(height: nat, hash: Hash, tx: Transaction, miner: bool, i: nat): (o: NewOutput)
    requires i < |tx.vout|
  {
    NewOutput(height, hash, StoredOut(tx, miner, i), i, tx.unlockTime, StoredCommitment(tx, miner, i))
  }

  function AddTxOutput(outs: Outputs, height: nat, hash: Hash, tx: Transaction, miner: bool, i: nat)
    : (r: DbResult<(Outputs, nat)>)
    requires i < |tx.vout|
  {
    AddOutput(outs, OutputOf(height, hash, tx, miner, i))
  }

  /** Adds the first `n` outputs. */
  function AddOutputs(outs: Outputs, height: nat, hash: Hash, tx: Transaction, miner: bool, n: nat)
    : (r: DbResult<(Outputs, seq<nat>)>)
    requires n <= |tx.vout|
    ensures r.Ok? ==> |r.value.1| == n
  {
    if n == 0 then Ok((outs, []))
    else
      var u :- AddOutputs(outs, height, hash, tx, miner, n - 1);
      var v :- AddTxOutput(u.0, height, hash, tx, miner, n - 1);
      Ok((v.0, u.1 + [v.1]))
  }

  function AddTxData(t: Tables, tx: Transaction, hash: Hash, miner: bool): (r: DbResult<Tables>) {
    var u :- AddTransactionData(t, tx, hash);
    var v :- AddOutputs(u.0.outs, |u.0.blocks|, hash, tx, miner, |tx.vout|);
    AddTxAmountOutputIndices(u.0.(outs := v.0), u.1, v.1)
  }

  function AddTx(t: Tables, tx: Transaction, hash: Hash): (r: DbResult<Tables>) {
    match AddInputs(t, tx.vin)
    case Failed(_, e) => Err(e)
    case Aborted(u) => Ok(RemoveSpentKeys(u, tx.vin))
    case Added(u, miner) => AddTxData(u, tx, hash, miner)
  }

  // ---- Removing a transaction -------------------------------------------------

  function RemoveTx(t: Tables, hash: Hash): (r: DbResult<Tables>) {
    var tx :- GetTx(t, hash);
    RemoveTransactionData(RemoveSpentKeys(t, tx.vin), hash, tx)
  }

  // ---- Blocks --------------------------------------------------------------------

  function AddTxs(t: Tables, txs: seq<Transaction>, hashes: seq<Hash>): (r: DbResult<Tables>)
    requires |txs| == |hashes|
  {
    if txs == [] then Ok(t)
    else
      var n := |txs| - 1;
      var u :- AddTxs(t, txs[..n], hashes[..n]);
      AddTx(u, txs[n], hashes[n])
  }

  function AddBlock(t: Tables, blk: Block, info: BlockInfo, txs: seq<Transaction>): (r: DbResult<Tables>) {
    if |blk.txHashes| != |txs| then Err(InconsistentSizes)
    else
      var u :- AddTx(t, blk.minerTx, blk.minerTxHash);
      var v :- AddTxs(u, txs, blk.txHashes);
      AddBlockRow(v, blk, info)
  }

  /** Fetches and removes transactions, last hash first. */
  function PopTxs(t: Tables, hashes: seq<Hash>): (r: DbResult<(Tables, seq<Transaction>)>)
    ensures r.Ok? ==> |r.value.1| == |hashes|
    decreases |hashes|
  {
    if hashes == [] then Ok((t, []))
    else
      var n := |hashes| - 1;
      var tx :- GetTx(t, hashes[n]);
      var u :- RemoveTx(t, hashes[n]);
      var v :- PopTxs(u, hashes[..n]);
      Ok((v.0, [tx] + v.1))
  }

  /** The transactions fetched by the same loop, up to its end or an error. A
      transaction is fetched before it is removed. */
  function Fetched(t: Tables, hashes: seq<Hash>): (txs: seq<Transaction>)
    ensures PopTxs(t, hashes).Ok? ==> txs == PopTxs(t, hashes).value.1
    ensures |txs| <= |hashes|
    decreases |hashes|
  {
    if hashes == [] then []
    else
      var n := |hashes| - 1;
      match GetTx(t, hashes[n])
      case Err(_) => []
      case Ok(tx) =>
        match RemoveTx(t, hashes[n])
        case Err(_) => [tx]
        case Ok(u) => [tx] + Fetched(u, hashes[..n])
  }

  datatype Popped = Popped(t: Tables, blk: Block, txs: seq<Transaction>)

  function PopBlock(t: Tables): (r: DbResult<Popped>) {
    if t.blocks == [] then Err(BlockDne)
    else
      var blk := t.blocks[|t.blocks| - 1].blk;
      var u :- RemoveBlockRow(t);
      var v :- PopTxs(u, blk.txHashes);
      var w :- RemoveTx(v.0, blk.minerTxHash);
      Ok(Popped(w, blk, v.1))
  }
}
