/** Where an operation on the block store can throw, with which error, and what it
    leaves then, told by the step that throws. */
module BlockThrows {
  import opened SharedTypes
  import opened Lists
  import opened BlockTables
  import opened BlockOps
  import opened BlockRoundTrip
  import opened BlockChain
  import opened BlockResidue
  import opened BlockStore

  // ---- Adding -------------------------------------------------------------------------------

  /** An output that is refused because of the outputs of its amount leaves the row of
      output_txs that it gets where no output is filed; any other leaves nothing. */
  lemma RefusedOutputLeaves(outs: Outputs, o: NewOutput)
    requires AddOutput(outs, o).Err?
    ensures var bare := AddOutput(outs.(amounts := map[]), o);
      OutputResidue(outs, o) == if bare.Ok? then outs.(txs := bare.value.0.txs) else outs
  {
    assert SlotsOf(map[], o.out.amount) == {};
  }

  /** A transaction that only the rows of tx_outputs keep from being added leaves all its
      rows but the one there. */
  lemma RefusedIndicesLeave(t: Tables, tx: Transaction, hash: Hash)
    requires AllSupported(tx.vin) && AddTx(t, tx, hash).Err? && AddTx(t.(txOutputs := map[]), tx, hash).Ok?
    ensures AddTx(t, tx, hash) == Err(DbError)
    ensures TxResidue(t, tx, hash) == AddTx(t.(txOutputs := map[]), tx, hash).value.(txOutputs := t.txOutputs)
  {
    hide AddInputs, AddOutputs, Images;
    AddInputsSupported(t, tx.vin);
    AddInputsSupported(t.(txOutputs := map[]), tx.vin);
  }

  /** The miner transaction and the transactions of a block, as they are added. */
  function Transactions(blk: Block, txs: seq<Transaction>): (r: seq<Transaction>)
    ensures |r| == |txs| + 1
  {
    [blk.minerTx] + txs
  }

  function Hashes(blk: Block): (r: seq<Hash>)
    ensures |r| == |blk.txHashes| + 1
  {
    [blk.minerTxHash] + blk.txHashes
  }

  lemma AddBlockIsList(t: Tables, blk: Block, info: BlockInfo, txs: seq<Transaction>)
    requires |txs| == |blk.txHashes|
    ensures AddBlock(t, blk, info, txs) ==
      match AddTxs(t, Transactions(blk, txs), Hashes(blk))
      case Ok(v) => AddBlockRow(v, blk, info)
      case Err(e) => Err(e)
    ensures BlockResidueOf(t, blk, txs) ==
      match AddTxs(t, Transactions(blk, txs), Hashes(blk))
      case Ok(v) => v
      case Err(_) => TxsResidue(t, Transactions(blk, txs), Hashes(blk))
  {
    hide AddTx, TxResidue, AddBlockRow, AddTxs, TxsResidue;
    AddTxsCons(t, blk.minerTx, blk.minerTxHash, txs, blk.txHashes);
    if AddTxs(t, Transactions(blk, txs), Hashes(blk)).Err? {
      TxsResidueCons(t, blk.minerTx, blk.minerTxHash, txs, blk.txHashes);
    }
  }

  lemma {:induction false} TxsResidueCons(t: Tables, tx: Transaction, hash: Hash, txs: seq<Transaction>,
                                          hashes: seq<Hash>)
    requires |txs| == |hashes| && AddTxs(t, [tx] + txs, [hash] + hashes).Err?
    ensures TxsResidue(t, [tx] + txs, [hash] + hashes) ==
      match AddTx(t, tx, hash)
      case Ok(u) => TxsResidue(u, txs, hashes)
      case Err(_) => TxResidue(t, tx, hash)
  {
    hide AddTx, TxResidue;
    var n := |txs|;
    var all, hs := [tx] + txs, [hash] + hashes;
    if n == 0 {
      assert all[..0] == [] && hs[..0] == [];
    } else {
      assert all[..n] == [tx] + txs[..n - 1] && hs[..n] == [hash] + hashes[..n - 1];
      AddTxsCons(t, tx, hash, txs[..n - 1], hashes[..n - 1]);
      if AddTxs(t, all[..n], hs[..n]).Err? {
        TxsResidueCons(t, tx, hash, txs[..n - 1], hashes[..n - 1]);
      }
    }
  }

  /** If the first `k` transactions are added and the next is refused, the block is
      refused with that error, and leaves those `k` and what that one leaves. */
  lemma RefusedTxLeaves(t: Tables, blk: Block, info: BlockInfo, txs: seq<Transaction>, k: nat)
    requires k <= |txs| == |blk.txHashes|
    requires AddTxs(t, Transactions(blk, txs)[..k], Hashes(blk)[..k]).Ok?
    ensures var v, tx, hash :=
        AddTxs(t, Transactions(blk, txs)[..k], Hashes(blk)[..k]).value, Transactions(blk, txs)[k], Hashes(blk)[k];
      AddTx(v, tx, hash).Err? ==>
        && AddBlock(t, blk, info, txs) == Err(AddTx(v, tx, hash).error)
        && BlockResidueOf(t, blk, txs) == TxResidue(v, tx, hash)
  {
    var all, hs := Transactions(blk, txs), Hashes(blk);
    hide AddTx, TxResidue, AddBlock, BlockResidueOf, Transactions, Hashes;
    var v := AddTxs(t, all[..k], hs[..k]).value;
    AddBlockIsList(t, blk, info, txs);
    assert all[..k + 1][..k] == all[..k] && hs[..k + 1][..k] == hs[..k];
    if AddTx(v, all[k], hs[k]).Err? {
      AddTxsStops(t, all, hs, k + 1);
    }
  }

  /** If all are added and only the block's own rows are refused, all of them stay; a
      block with a wrong number of transactions leaves nothing. */
  lemma RefusedRowLeaves(t: Tables, blk: Block, info: BlockInfo, txs: seq<Transaction>)
    ensures |txs| != |blk.txHashes| ==>
      AddBlock(t, blk, info, txs) == Err(InconsistentSizes) && BlockResidueOf(t, blk, txs) == t
    ensures |txs| == |blk.txHashes| && AddTxs(t, Transactions(blk, txs), Hashes(blk)).Ok? ==>
      var v := AddTxs(t, Transactions(blk, txs), Hashes(blk)).value;
      BlockResidueOf(t, blk, txs) == v && AddBlock(t, blk, info, txs) == AddBlockRow(v, blk, info)
  {
    if |txs| == |blk.txHashes| {
      hide AddBlock, BlockResidueOf, AddTxs, AddBlockRow;
      AddBlockIsList(t, blk, info, txs);
    }
  }

  // ---- Removing -----------------------------------------------------------------------------

  /** The hash leads to a transaction. */
  ghost predicate Known(t: Tables, hash: Hash) {
    hash in t.txIndices && t.txIndices[hash].id in t.txs
  }

  /** A removal throws for a transaction that is not there, and leaves all as it was. It
      throws for one without a fitting list of output indices, and if an output throws;
      the key images and the transaction are gone then, its other rows are not. */
  lemma RefusedRemovalLeaves(t: Tables, hash: Hash)
    ensures !Known(t, hash) ==> RemoveTx(t, hash) == Err(TxDne) && RemovedTxResidue(t, hash) == t
    ensures Known(t, hash) ==>
      var id := t.txIndices[hash].id;
      var tx := t.txs[id];
      var u := t.(spentKeys := t.spentKeys - Elements(Images(tx.vin)), txs := t.txs - {id});
      if id !in t.txOutputs || |t.txOutputs[id]| != |tx.vout|
      then RemoveTx(t, hash) == Err(DbError) && RemovedTxResidue(t, hash) == u
      else
        match RemoveOutputs(t.outs, tx, t.txOutputs[id], |tx.vout|)
        case Err(e) =>
          && RemoveTx(t, hash) == Err(e)
          && RemovedTxResidue(t, hash) ==
             u.(outs := RemovedOutputsResidue(t.outs, tx, t.txOutputs[id], |tx.vout|))
        case Ok(outs) =>
          RemoveTx(t, hash) ==
          Ok(u.(outs := outs, txOutputs := t.txOutputs - {id}, txIndices := t.txIndices - {hash}))
  {
    hide RemoveOutputs, RemovedOutputsResidue;
    if Known(t, hash) {
      RemoveSpentKeysIsDifference(t, t.txs[t.txIndices[hash].id].vin);
    }
  }

  /** If the transactions from `k` on are removed and the one before throws, so does the
      loop; it leaves what that one leaves, and has fetched those, and that one if it is
      there. */
  lemma {:induction false} RefusedPopLeaves(t: Tables, hashes: seq<Hash>, k: nat)
    requires 0 < k <= |hashes| && PopTxs(t, hashes[k..]).Ok?
    requires RemoveTx(PopTxs(t, hashes[k..]).value.0, hashes[k - 1]).Err?
    ensures var p, h := PopTxs(t, hashes[k..]).value, hashes[k - 1];
      && PopTxs(t, hashes) == Err(RemoveTx(p.0, h).error)
      && PoppedTxsResidue(t, hashes) == RemovedTxResidue(p.0, h)
      && Fetched(t, hashes) == p.1 + (if Known(p.0, h) then [p.0.txs[p.0.txIndices[h].id]] else [])
    decreases |hashes|
  {
    hide RemoveTx, RemovedTxResidue;
    var n := |hashes| - 1;
    if k == |hashes| {
      assert hashes[k..] == [];
      RefusedFetch(t, hashes);
    } else {
      var rest := hashes[k..];
      assert rest[..|rest| - 1] == hashes[..n][k..] && rest[|rest| - 1] == hashes[n];
      RefusedPopLeaves(RemoveTx(t, hashes[n]).value, hashes[..n], k);
    }
  }

  lemma RefusedFetch(t: Tables, hashes: seq<Hash>)
    requires hashes != [] && RemoveTx(t, hashes[|hashes| - 1]).Err?
    ensures var h := hashes[|hashes| - 1];
      && PopTxs(t, hashes) == Err(RemoveTx(t, h).error)
      && Fetched(t, hashes) == if Known(t, h) then [t.txs[t.txIndices[h].id]] else []
  {
    hide RemoveSpentKeys, RemoveTransactionData;
  }

  /** An empty store, or one whose top block's hash is missing, refuses a pop at once.
      Otherwise the block's rows go first, then its transactions, which are fetched, then
      the miner transaction, which is not. */
  lemma PopBlockErrors(t: Tables)
    ensures t.blocks == [] ==> PopBlock(t) == Err(BlockDne) && PoppedResidue(t) == t && FetchedOf(t) == []
    ensures t.blocks != [] ==>
      var top := t.blocks[|t.blocks| - 1];
      if top.hash !in t.blockHeights
      then PopBlock(t) == Err(DbError) && PoppedResidue(t) == t && FetchedOf(t) == []
      else
        var u := t.(blocks := t.blocks[..|t.blocks| - 1], blockHeights := t.blockHeights - {top.hash});
        FetchedOf(t) == Fetched(u, top.blk.txHashes) &&
        match PopTxs(u, top.blk.txHashes)
        case Err(e) => PopBlock(t) == Err(e) && PoppedResidue(t) == PoppedTxsResidue(u, top.blk.txHashes)
        case Ok(p) =>
          match RemoveTx(p.0, top.blk.minerTxHash)
          case Err(e) => PopBlock(t) == Err(e) && PoppedResidue(t) == RemovedTxResidue(p.0, top.blk.minerTxHash)
          case Ok(v) => PopBlock(t) == Ok(Popped(v, top.blk, p.1))
  {
    hide PopTxs, RemoveTx, PoppedTxsResidue, RemovedTxResidue;
  }
}
