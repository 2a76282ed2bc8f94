/** The tables of the block store and the primitive operations on them, as the
    LMDB subclass implements them. An LMDB write that finds an unexpected key
    throws; here it yields an error. */
module BlockTables {
  import opened SharedTypes

  datatype TxIn = ToKey(image: KeyImage) | Gen | Unsupported

  /** `toKey`: the target is a txout_to_key with key `key`. `mask` is the
      commitment that the RingCT signatures hold for this output. */
  datatype TxOut = TxOut(amount: nat, toKey: bool, key: PublicKey, mask: Commitment)

  datatype Transaction = Transaction(version: nat, unlockTime: nat, vin: seq<TxIn>, vout: seq<TxOut>)

  /** A block with its hash and the hash of its miner transaction. */
  datatype Block = Block(hash: Hash, prevId: Hash, minerTx: Transaction, minerTxHash: Hash, txHashes: seq<Hash>)

  datatype BlockInfo = BlockInfo(size: nat, difficulty: nat, coins: nat)

  /** The rows of blocks and block_info at one height; block_info holds the hash. */
  datatype BlockRow = BlockRow(blk: Block, info: BlockInfo, hash: Hash)

  datatype TxIndex = TxIndex(id: nat, unlockTime: nat, blockId: nat)

  datatype OutTx = OutTx(hash: Hash, local: nat)

  /** Key of an output: its amount and its index among the outputs of that amount. */
  datatype Slot = Slot(amount: nat, index: nat)

  datatype OutKey = OutKey(outputId: nat, key: PublicKey, unlockTime: nat, height: nat, commitment: Option<Commitment>)

  /** output_txs and output_amounts. */
  datatype Outputs = Outputs(txs: map<nat, OutTx>, amounts: map<Slot, OutKey>)

  datatype Tables = Tables(
    blocks: seq<BlockRow>,
    blockHeights: map<Hash, nat>,
    txs: map<nat, Transaction>,
    txIndices: map<Hash, TxIndex>,
    txOutputs: map<nat, seq<nat>>,
    outs: Outputs,
    spentKeys: set<KeyImage>)

  const EMPTY := Tables([], map[], map[], map[], map[], Outputs(map[], map[]), {})

  datatype Error =
    | InconsistentSizes
    | KeyImageExists
    | TxExists
    | TxDne
    | OutputDne
    | BlockExists
    | BlockParentDne
    | BlockDne
    | DbError

  type DbResult<+T> = Result<T, Error>

  /** The condition of an MDB_APPEND write: the key is above all present keys. */
  predicate Above(keys: set<nat>, id: nat) {
    forall i :: i in keys ==> i < id
  }

  // ---- Key images ------------------------------------------------------------

  function AddSpentKey(t: Tables, k: KeyImage): (r: DbResult<Tables>) {
    if k in t.spentKeys then Err(KeyImageExists) else Ok(t.(spentKeys := t.spentKeys + {k}))
  }

  /** Removing an absent key image is not an error. */
  function RemoveSpentKey(t: Tables, k: KeyImage): (r: Tables) {
    t.(spentKeys := t.spentKeys - {k})
  }

  // ---- Outputs -----------------------------------------------------------------

  function SlotsOf(amounts: map<Slot, OutKey>, amount: nat): (s: set<Slot>) {
    set s | s in amounts && s.amount == amount
  }

  /** The same condition among the outputs of one amount. */
  predicate AboveSlots(slots: set<Slot>, index: nat) {
    forall s :: s in slots ==> s.index < index
  }

  /** What add_output is told of a new output. */
  datatype NewOutput = NewOutput(
    height: nat,
    hash: Hash,
    out: TxOut,
    local: nat,
    unlockTime: nat,
    commitment: Option<Commitment>)

  function AddOutput(outs: Outputs, o: NewOutput): (r: DbResult<(Outputs, nat)>) {
    if !o.out.toKey then Err(DbError)
    else if o.out.amount == 0 && o.commitment.None? then Err(DbError)
    else
      var outputId := |outs.txs|;
      var index := |SlotsOf(outs.amounts, o.out.amount)|;
      if !Above(outs.txs.Keys, outputId) then Err(DbError)
      else if !AboveSlots(SlotsOf(outs.amounts, o.out.amount), index) then Err(DbError)
      else
        var stored := if o.out.amount == 0 then o.commitment else None;
        var key := OutKey(outputId, o.out.key, o.unlockTime, o.height, stored);
        var slot := Slot(o.out.amount, index);
        Ok((Outputs(outs.txs[outputId := OutTx(o.hash, o.local)], outs.amounts[slot := key]), index))
  }

  function RemoveOutput(outs: Outputs, amount: nat, index: nat): (r: DbResult<Outputs>) {
    var slot := Slot(amount, index);
    if slot !in outs.amounts then Err(OutputDne)
    else if outs.amounts[slot].outputId !in outs.txs then Err(DbError)
    else Ok(Outputs(outs.txs - {outs.amounts[slot].outputId}, outs.amounts - {slot}))
  }

  // ---- Transactions ----------------------------------------------------------------

  function AddTransactionData(t: Tables, tx: Transaction, hash: Hash): (r: DbResult<(Tables, nat)>) {
    var id := |t.txs|;
    if hash in t.txIndices then Err(TxExists)
    else if !Above(t.txs.Keys, id) then Err(DbError)
    else Ok((t.(txIndices := t.txIndices[hash := TxIndex(id, tx.unlockTime, |t.blocks|)], txs := t.txs[id := tx]), id))
  }

  function AddTxAmountOutputIndices(t: Tables, id: nat, indices: seq<nat>): (r: DbResult<Tables>) {
    if !Above(t.txOutputs.Keys, id) then Err(DbError)
    else Ok(t.(txOutputs := t.txOutputs[id := indices]))
  }

  function GetTx(t: Tables, hash: Hash): (r: DbResult<Transaction>) {
    if hash in t.txIndices && t.txIndices[hash].id in t.txs then Ok(t.txs[t.txIndices[hash].id]) else Err(TxDne)
  }

  /** The removal side's test for outputs stored under amount 0. */
  predicate IsPseudoRct(tx: Transaction) {
    tx.version >= 2 && |tx.vin| == 1 && tx.vin[0].Gen?
  }

  function RemovalAmount(tx: Transaction, i: nat): (a: nat)
    requires i < |tx.vout|
  {
    if IsPseudoRct(tx) then 0 else tx.vout[i].amount
  }

  /** Removes the last `n` recorded outputs down to none, last one first. */
  function RemoveOutputs(outs: Outputs, tx: Transaction, indices: seq<nat>, n: nat): (r: DbResult<Outputs>)
    requires n <= |tx.vout| == |indices|
    decreases n
  {
    if n == 0 then Ok(outs)
    else
      var u :- RemoveOutput(outs, RemovalAmount(tx, n - 1), indices[n - 1]);
      RemoveOutputs(u, tx, indices, n - 1)
  }

  /** A missing or short index list is an error here; the original reads past its end. */
  function RemoveTransactionData(t: Tables, hash: Hash, tx: Transaction): (r: DbResult<Tables>) {
    if hash !in t.txIndices then Err(TxDne)
    else
      var id := t.txIndices[hash].id;
      if id !in t.txs then Err(DbError)
      else if id !in t.txOutputs || |t.txOutputs[id]| != |tx.vout| then Err(DbError)
      else
        var outs :- RemoveOutputs(t.outs, tx, t.txOutputs[id], |tx.vout|);
        Ok(t.(txs := t.txs - {id}, outs := outs, txOutputs := t.txOutputs - {id}, txIndices := t.txIndices - {hash}))
  }

  // ---- Blocks -----------------------------------------------------------------------

  function AddBlockRow(t: Tables, blk: Block, info: BlockInfo): (r: DbResult<Tables>) {
    if blk.hash in t.blockHeights then Err(BlockExists)
    else if |t.blocks| > 0 && blk.prevId !in t.blockHeights then Err(DbError)
    else if |t.blocks| > 0 && t.blockHeights[blk.prevId] != |t.blocks| - 1 then Err(BlockParentDne)
    else Ok(t.(blocks := t.blocks + [BlockRow(blk, info, blk.hash)],
               blockHeights := t.blockHeights[blk.hash := |t.blocks|]))
  }

  function RemoveBlockRow(t: Tables): (r: DbResult<Tables>) {
    if t.blocks == [] then Err(BlockDne)
    else
      var hash := t.blocks[|t.blocks| - 1].hash;
      if hash !in t.blockHeights then Err(DbError)
      else Ok(t.(blocks := t.blocks[..|t.blocks| - 1], blockHeights := t.blockHeights - {hash}))
  }
}
