/** Which transactions a pop removes, and in which order. */
module BlockRemoval {
  import opened SharedTypes
  import opened BlockTables
  import opened BlockOps
  import opened BlockChain

  /** The hashes that popping `blk` works through, from the last to the first. */
  function PopHashes(blk: Block): (hashes: seq<Hash>) {
    [blk.minerTxHash] + blk.txHashes
  }

  /** A pop is the removal of the block row and then of these transactions. */
  lemma PopIsRemovals(t: Tables)
    requires t.blocks != [] && RemoveBlockRow(t).Ok?
    ensures var blk := t.blocks[|t.blocks| - 1].blk;
      var r := PopTxs(RemoveBlockRow(t).value, PopHashes(blk));
      && PopBlock(t).Ok? == r.Ok?
      && (r.Ok? ==> PopBlock(t).value == Popped(r.value.0, blk, r.value.1[..|blk.txHashes|]))
  {
    hide RemoveTx;
    var blk := t.blocks[|t.blocks| - 1].blk;
    PopTxsCons(RemoveBlockRow(t).value, blk.minerTxHash, blk.txHashes);
  }

  /** The ids of the removed transactions in the order of the removals, up to the
      end of the list or to a removal that fails. */
  ghost function RemovedIds(t: Tables, hashes: seq<Hash>): (ids: seq<nat>)
    decreases |hashes|
  {
    if hashes == [] then []
    else
      var n := |hashes| - 1;
      match RemoveTx(t, hashes[n])
      case Ok(u) => [t.txIndices[hashes[n]].id] + RemovedIds(u, hashes[..n])
      case Err(_) => []
  }

  /** Each removal succeeds and takes the transaction with the highest id present. */
  ghost predicate Lifo(t: Tables, hashes: seq<Hash>)
    decreases |hashes|
  {
    hashes != [] ==>
      var n := |hashes| - 1;
      IsTop(t, hashes[n]) && RemoveTx(t, hashes[n]).Ok? && Lifo(RemoveTx(t, hashes[n]).value, hashes[..n])
  }

  /** `top - 1`, `top - 2` and so on. */
  ghost predicate CountsDown(ids: seq<nat>, top: nat) {
    forall k: nat :: k < |ids| ==> ids[k] == top - 1 - k
  }
}
