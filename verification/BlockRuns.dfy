/** Whole runs of additions and pops: every reachable store is the one that the
    surviving blocks alone would have built, and pops remove the most recent
    transaction first. */
module BlockRuns {
  import opened SharedTypes
  import opened BlockTables
  import opened BlockOps
  import opened BlockRoundTrip
  import opened BlockChain
  import opened BlockRemoval
  import opened BlockBalance
  import opened UndoStack

  datatype Entry = Entry(blk: Block, info: BlockInfo, txs: seq<Transaction>) {
    function AllTxs(): (s: seq<Transaction>) {
      [blk.minerTx] + txs
    }
  }

  /** Exactly when a pop at once after the addition restores the tables `t`. */
  ghost predicate Restorable(t: Tables, e: Entry) {
    AllTxsSupported(e.AllTxs()) && Balanced(t.outs, e.AllTxs())
  }

  function AddEntry(t: Tables, e: Entry): (r: DbResult<Tables>) {
    AddBlock(t, e.blk, e.info, e.txs)
  }

  function PopEntry(t: Tables): (r: DbResult<(Tables, (Block, seq<Transaction>))>) {
    match PopBlock(t)
    case Ok(p) => Ok((p.t, (p.blk, p.txs)))
    case Err(e) => Err(e)
  }

  /** What popping `e` hands back. */
  function PoppedView(e: Entry): (r: (Block, seq<Transaction>)) {
    (e.blk, Reversed(e.txs))
  }

  lemma BlocksUndo()
    ensures Undoes(AddEntry, PopEntry, EMPTY, PoppedView, Restorable)
  {
    forall t, e | Restorable(t, e) && AddEntry(t, e).Ok?
      ensures PopEntry(AddEntry(t, e).value) == Ok((t, PoppedView(e)))
    {
      PopRestoresIff(t, e.blk, e.info, e.txs);
    }
  }

  // ---- Runs -----------------------------------------------------------------------------

  /** Each block that the run added was restorable at the store it met. */
  ghost predicate Undoable(ops: seq<Op<Entry>>) {
    GoodRun(AddEntry, PopEntry, EMPTY, Restorable, ops)
  }

  /** In particular when no input is unsupported and both sides file the outputs of
      every transaction alike. */
  lemma {:induction false} AgreeingIsUndoable(ops: seq<Op<Entry>>)
    requires forall op :: op in ops && op.Push? ==> AllTxsSupported(op.e.AllTxs()) && AllSidesAgree(op.e.AllTxs())
    ensures Undoable(ops)
  {
    hide AddEntry, PopEntry;
    if ops != [] {
      var n := |ops| - 1;
      assert ops[n] in ops;
      AgreeingIsUndoable(ops[..n]);
      if ops[n].Push? {
        AgreeingIsBalanced(Run(AddEntry, PopEntry, EMPTY, ops[..n]).outs, ops[n].e.AllTxs());
      }
    }
  }

  /** What the network's transactions are like: one with a generating input has no other,
      and is of version 2 at most. */
  predicate Ordinary(tx: Transaction) {
    (tx.vin == [Gen] && tx.version <= 2) || Gen !in tx.vin
  }

  lemma OrdinaryAgrees(txs: seq<Transaction>)
    requires forall tx :: tx in txs ==> Ordinary(tx)
    ensures AllSidesAgree(txs)
  {
  }

  lemma OrdinaryTxIsUndone(t: Tables, tx: Transaction, hash: Hash)
    requires AllSupported(tx.vin) && Ordinary(tx) && AddTx(t, tx, hash).Ok?
    ensures RemoveTx(AddTx(t, tx, hash).value, hash) == Ok(t)
  {
    AddThenRemoveTx(t, tx, hash);
  }

  /** Popping an added block of ordinary transactions restores every table of every
      store, and hands back the block and its transactions, last one first. */
  lemma OrdinaryBlockIsUndone(t: Tables, blk: Block, info: BlockInfo, txs: seq<Transaction>)
    requires AddBlock(t, blk, info, txs).Ok?
    requires forall tx :: tx in [blk.minerTx] + txs ==> AllSupported(tx.vin) && Ordinary(tx)
    ensures var r := PopBlock(AddBlock(t, blk, info, txs).value);
      && r.Ok? && r.value.t == t && r.value.blk == blk && |r.value.txs| == |txs|
      && forall i :: 0 <= i < |txs| ==> r.value.txs[i] == txs[|txs| - 1 - i]
  {
    hide AddBlock, PopBlock;
    OrdinaryAgrees([blk.minerTx] + txs);
    AgreeingPopRestoresIff(t, blk, info, txs);
    ReversedTwice(txs);
  }

  /** Every undoable run of additions and pops, refused calls included, leaves
      exactly the tables that the surviving blocks build on their own. */
  lemma BlockRunIsReplay(ops: seq<Op<Entry>>)
    requires Undoable(ops)
    ensures GoodChain(AddEntry, EMPTY, Restorable, Surviving(AddEntry, EMPTY, ops), 0)
    ensures Replay(AddEntry, EMPTY, Surviving(AddEntry, EMPTY, ops)) == Ok(Run(AddEntry, PopEntry, EMPTY, ops))
  {
    BlocksUndo();
    RunIsReplay(AddEntry, PopEntry, EMPTY, PoppedView, Restorable, ops);
  }

  /** The transactions of the blocks, first to last. */
  function ChainTxs(chain: seq<Entry>): (r: seq<Transaction>) {
    if chain == [] then [] else ChainTxs(chain[..|chain| - 1]) + chain[|chain| - 1].txs
  }

  /** The list that a caller collects over several pops. */
  function Collected(views: seq<(Block, seq<Transaction>)>): (r: seq<Transaction>) {
    if views == [] then [] else views[0].1 + Collected(views[1..])
  }

  lemma {:induction false} CollectedIsReversed(chain: seq<Entry>)
    ensures Collected(ViewsBackwards(PoppedView, chain)) == Reversed(ChainTxs(chain))
  {
    if chain != [] {
      var n := |chain| - 1;
      CollectedIsReversed(chain[..n]);
      var views := ViewsBackwards(PoppedView, chain);
      assert views[1..] == ViewsBackwards(PoppedView, chain[..n]);
      ReversedSplit(ChainTxs(chain[..n]), chain[n].txs);
    }
  }

  /** n additions and n pops: the store is as before, the blocks come back last
      to first, and the collected transactions, reversed, are those added. */
  lemma AddManyPopMany(before: seq<Entry>, added: seq<Entry>)
    requires GoodChain(AddEntry, EMPTY, Restorable, before + added, |before|)
    requires Replay(AddEntry, EMPTY, before + added).Ok?
    ensures Replay(AddEntry, EMPTY, before).Ok?
    ensures PopMany(PopEntry, Replay(AddEntry, EMPTY, before + added).value, |added|) ==
      Ok((Replay(AddEntry, EMPTY, before).value, ViewsBackwards(PoppedView, added)))
    ensures Reversed(Collected(ViewsBackwards(PoppedView, added))) == ChainTxs(added)
  {
    BlocksUndo();
    PopManyUndoes(AddEntry, PopEntry, EMPTY, PoppedView, Restorable, before, added);
    CollectedIsReversed(added);
    ReversedTwice(ChainTxs(added));
  }

  // ---- The order of the removals ----------------------------------------------------------

  /** Whatever outputs there are besides: as long as the removals find what they
      look for, they take the transactions in the reverse order of addition. */
  lemma {:induction false} AddedIsLifo(t: Tables, txs: seq<Transaction>, hashes: seq<Hash>, outs: Outputs)
    requires |txs| == |hashes| && AllTxsSupported(txs) && AddTxs(t, txs, hashes).Ok?
    requires PopTxs(AddTxs(t, txs, hashes).value.(outs := outs), hashes).Ok?
    ensures var u := AddTxs(t, txs, hashes).value.(outs := outs);
      Lifo(u, hashes) && |RemovedIds(u, hashes)| == |hashes| && CountsDown(RemovedIds(u, hashes), |u.txs|)
    decreases |txs|
  {
    hide AddTx, RemoveTx, NewOutputs, RemoveSlots;
    if txs != [] {
      var n := |txs| - 1;
      var v := AddTxs(t, txs[..n], hashes[..n]).value;
      var u := AddTxs(t, txs, hashes).value.(outs := outs);
      assert txs[n] in txs;
      AddTxOutputs(v, txs[n], hashes[n]);
      LastIsTop(v, txs[n], hashes[n]);
      RemoveLast(v, txs[n], hashes[n], outs);
      var rest := RemoveTx(u, hashes[n]).value.outs;
      assert RemoveTx(u, hashes[n]) == Ok(v.(outs := rest));
      RemoveTxCount(u, hashes[n]);
      AddedIsLifo(t, txs[..n], hashes[..n], rest);
    }
  }

  /** Popping `blk` from `t` removes one transaction per hash of the block, and
      after these its miner transaction. The ids go down by one from the highest
      in the store, so that each removal takes the transaction added last among
      those still stored. */
  ghost predicate RemovesTopDown(t: Tables, blk: Block) {
    && t.blocks != [] && t.blocks[|t.blocks| - 1].blk == blk && RemoveBlockRow(t).Ok?
    && var u, hashes := RemoveBlockRow(t).value, PopHashes(blk);
      && u.txs == t.txs && Lifo(u, hashes)
      && |RemovedIds(u, hashes)| == |hashes| && CountsDown(RemovedIds(u, hashes), |t.txs|)
  }

  /** Over every undoable run, refused calls included: a pop finds a block exactly
      when the surviving chain is not empty, and then removes the top block's
      transactions in the reverse order of their addition. */
  lemma PopsAreLifo(ops: seq<Op<Entry>>)
    requires Undoable(ops)
    ensures var t, chain := Run(AddEntry, PopEntry, EMPTY, ops), Surviving(AddEntry, EMPTY, ops);
      && (PopBlock(t).Ok? <==> chain != [])
      && (chain != [] ==> RemovesTopDown(t, chain[|chain| - 1].blk))
  {
    hide Restorable, AddEntry, PopEntry, RemovesTopDown;
    BlockRunIsReplay(ops);
    var chain := Surviving(AddEntry, EMPTY, ops);
    if chain != [] {
      var n := |chain| - 1;
      TopIsLifo(Replay(AddEntry, EMPTY, chain[..n]).value, chain[n]);
    }
  }

  lemma TopIsLifo(t: Tables, e: Entry)
    requires Restorable(t, e) && AddEntry(t, e).Ok?
    ensures PopBlock(AddEntry(t, e).value).Ok? && RemovesTopDown(AddEntry(t, e).value, e.blk)
  {
    hide AddTx, AddTxs, RemoveTx, PopTxs, Lifo, RemovedIds, Balanced;
    var w := AddEntry(t, e).value;
    var u, v := AddBlockParts(t, e.blk, e.info, e.txs);
    AddTxsCons(t, e.blk.minerTx, e.blk.minerTxHash, e.txs, e.blk.txHashes);
    PopRestoresIff(t, e.blk, e.info, e.txs);
    PopIsRemovals(w);
    assert v.(outs := v.outs) == v;
    AddedIsLifo(t, e.AllTxs(), PopHashes(e.blk), v.outs);
  }
}
