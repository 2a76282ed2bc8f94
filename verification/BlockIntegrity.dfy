/** Referential integrity of the tables, and what every reachable store holds. */
module BlockIntegrity {
  import opened SharedTypes
  import opened Lists
  import opened BlockTables
  import opened BlockOps
  import opened BlockRoundTrip
  import opened BlockChain
  import opened BlockBalance
  import opened BlockRuns
  import opened BlockInvariant
  import opened BlockAcceptance
  import opened BlockLog
  import opened UndoStack

  /** The transaction stored under `h` has one recorded index per output. */
  ghost predicate Recorded(t: Tables, h: Hash) {
    && h in t.txIndices
    && t.txIndices[h].id in t.txs && t.txIndices[h].id in t.txOutputs
    && |t.txOutputs[t.txIndices[h].id]| == |t.txs[t.txIndices[h].id].vout|
  }

  ghost function StoredTx(t: Tables, h: Hash): (tx: Transaction)
    requires Recorded(t, h)
  {
    t.txs[t.txIndices[h].id]
  }

  /** Where output `j` of the transaction stored under `h` is filed. A version-2
      coinbase has all its outputs under amount 0. */
  ghost function SlotFor(t: Tables, h: Hash, j: nat): (s: Slot)
    requires Recorded(t, h) && j < |StoredTx(t, h).vout|
  {
    Slot(FiledAmount(StoredTx(t, h), Gen in StoredTx(t, h).vin, j), t.txOutputs[t.txIndices[h].id][j])
  }

  /** That slot holds the output's key and commitment with the transaction's unlock
      time and height, and its output id leads back to it. */
  ghost predicate Filed(t: Tables, h: Hash, j: nat)
    requires Recorded(t, h) && j < |StoredTx(t, h).vout|
  {
    var tx, s := StoredTx(t, h), SlotFor(t, h, j);
    && s in t.outs.amounts
    && t.outs.amounts[s] == OutKey(
         t.outs.amounts[s].outputId, tx.vout[j].key, tx.unlockTime, t.txIndices[h].blockId,
         RowCommitment(tx, Gen in tx.vin, j))
    && t.outs.amounts[s].outputId in t.outs.txs
    && t.outs.txs[t.outs.amounts[s].outputId] == OutTx(h, j)
  }

  /** A filed output belongs to an output of a stored transaction. */
  ghost predicate Owned(t: Tables, s: Slot)
    requires s in t.outs.amounts
  {
    && t.outs.amounts[s].outputId in t.outs.txs
    && var ot := t.outs.txs[t.outs.amounts[s].outputId];
      Recorded(t, ot.hash) && ot.local < |StoredTx(t, ot.hash).vout| && s == SlotFor(t, ot.hash, ot.local)
  }

  /** So does a row of output_txs, whose filed output leads back to it. */
  ghost predicate OwnedRow(t: Tables, i: nat)
    requires i in t.outs.txs
  {
    var ot := t.outs.txs[i];
    && Recorded(t, ot.hash) && ot.local < |StoredTx(t, ot.hash).vout|
    && var s := SlotFor(t, ot.hash, ot.local);
      s in t.outs.amounts && t.outs.amounts[s].outputId == i
  }

  /** The outputs of the stored transactions, the filed outputs and the rows of
      output_txs correspond one to one, and no two hashes share a transaction. */
  ghost predicate Linked(t: Tables) {
    && (forall h :: h in t.txIndices ==> Recorded(t, h))
    && (forall h, j: nat :: h in t.txIndices && j < |StoredTx(t, h).vout| ==> Filed(t, h, j))
    && (forall s :: s in t.outs.amounts ==> Owned(t, s))
    && (forall i :: i in t.outs.txs ==> OwnedRow(t, i))
    && forall g, h :: g in t.txIndices && h in t.txIndices && t.txIndices[g].id == t.txIndices[h].id ==> g == h
  }

  // ---- What the log says ---------------------------------------------------------------

  lemma RecordedAt(t: Tables, log: seq<Logged>, h: Hash) returns (i: nat)
    requires Logs(t, log) && h in t.txIndices
    ensures i < |log| && log[i].hash == h && Recorded(t, h) && t.txIndices[h].id == i
    ensures StoredTx(t, h) == log[i].tx && LogsAt(t, log[i], i, LogAmounts(log[..i]))
  {
    hide Count, LogAmounts, IndicesAfter, OutputAt;
    i :| i < |log| && log[i].hash == h;
    assert LogsAt(t, log[i], i, LogAmounts(log[..i]));
  }

  lemma FiledAt(t: Tables, e: Logged, i: nat, before: seq<nat>, j: nat)
    requires LogsAt(t, e, i, before) && j < |e.tx.vout|
    ensures Recorded(t, e.hash) && StoredTx(t, e.hash) == e.tx && Filed(t, e.hash, j)
    ensures t.outs.amounts[SlotFor(t, e.hash, j)].outputId == |before| + j
    ensures |before| + j in t.outs.txs && t.outs.txs[|before| + j] == OutTx(e.hash, j)
    ensures SlotFor(t, e.hash, j) ==
      Slot(FiledAmount(e.tx, Gen in e.tx.vin, j), IndicesAfter(before, FiledAmounts(e.tx, |e.tx.vout|))[j])
  {
    hide IndicesAfter, RowCommitment;
    assert OutputAt(t.outs, e, t.txOutputs[i], |before|, j);
  }

  /** What the log says of the outputs is all there is. */
  lemma LogsLinked(t: Tables, log: seq<Logged>)
    requires Dense(t) && Logs(t, log)
    ensures Linked(t)
  {
    hide Logs, LogsAt, Filed, SlotFor, Recorded, Owned, OwnedRow, IndicesAfter;
    forall h | h in t.txIndices ensures Recorded(t, h) {
      var _ := RecordedAt(t, log, h);
    }
    forall h, j: nat | h in t.txIndices && j < |StoredTx(t, h).vout| ensures Filed(t, h, j) {
      var i := RecordedAt(t, log, h);
      FiledAt(t, log[i], i, LogAmounts(log[..i]), j);
    }
    forall s | s in t.outs.amounts ensures Owned(t, s) {
      LogsOwned(t, log, s);
    }
    forall i | i in t.outs.txs ensures OwnedRow(t, i) {
      LogsOwnedRow(t, log, i);
    }
    forall g, h | g in t.txIndices && h in t.txIndices && t.txIndices[g].id == t.txIndices[h].id ensures g == h {
      var _ := RecordedAt(t, log, g);
      var _ := RecordedAt(t, log, h);
    }
  }

  lemma LogsOwned(t: Tables, log: seq<Logged>, s: Slot)
    requires Dense(t) && Logs(t, log) && s in t.outs.amounts
    ensures Owned(t, s)
  {
    hide LogsAt, Filed, SlotFor, Recorded, Count, IndicesAfter;
    var i, j := LocateSlot(log, s.amount, s.index);
    FiledAt(t, log[i], i, LogAmounts(log[..i]), j);
  }

  lemma LogsOwnedRow(t: Tables, log: seq<Logged>, id: nat)
    requires Dense(t) && Logs(t, log) && id in t.outs.txs
    ensures OwnedRow(t, id)
  {
    hide LogsAt, SlotFor, Recorded, Count, IndicesAfter;
    var i, j := LocateId(log, id);
    FiledAt(t, log[i], i, LogAmounts(log[..i]), j);
  }

  // ---- Soundness ------------------------------------------------------------------------

  ghost predicate Sound(t: Tables) {
    Dense(t) && Linked(t)
  }

  // ---- Chains and runs ------------------------------------------------------------------

  /** The key images of all transactions of the chain, in the order they were added. */
  function ChainImages(chain: seq<Entry>): (s: seq<KeyImage>) {
    if chain == [] then []
    else ChainImages(chain[..|chain| - 1]) + TxsImages([chain[|chain| - 1].blk.minerTx] + chain[|chain| - 1].txs)
  }

  /** The transactions of the chain in the order they were added, the miner
      transaction of each block first. */
  function ChainLog(chain: seq<Entry>): (log: seq<Logged>) {
    if chain == [] then []
    else
      var n := |chain| - 1;
      var e := chain[n];
      ChainLog(chain[..n]) + TxsLog([e.blk.minerTx] + e.txs, [e.blk.minerTxHash] + e.blk.txHashes, n)
  }

  function ChainRows(chain: seq<Entry>): (s: seq<BlockRow>)
    ensures |s| == |chain|
  {
    if chain == [] then []
    else
      var e := chain[|chain| - 1];
      ChainRows(chain[..|chain| - 1]) + [BlockRow(e.blk, e.info, e.blk.hash)]
  }

  /** The height table and the blocks agree, and each block names the one below
      it as its parent. */
  ghost predicate Chained(t: Tables) {
    && (forall i: nat :: i < |t.blocks| ==> t.blocks[i].hash in t.blockHeights && t.blockHeights[t.blocks[i].hash] == i)
    && (forall h :: h in t.blockHeights ==> t.blockHeights[h] < |t.blocks| && t.blocks[t.blockHeights[h]].hash == h)
    && forall i: nat :: 0 < i < |t.blocks| ==> t.blocks[i].blk.prevId == t.blocks[i - 1].hash
  }

  lemma ChainedMore(t: Tables, u: Tables, blk: Block, info: BlockInfo)
    requires Chained(t) && FitsOnTop(t, blk)
    requires u.blocks == t.blocks + [BlockRow(blk, info, blk.hash)]
    requires u.blockHeights == t.blockHeights[blk.hash := |t.blocks|]
    ensures Chained(u)
  {
    forall i: nat | 0 < i < |u.blocks| ensures u.blocks[i].blk.prevId == u.blocks[i - 1].hash {
      if i == |t.blocks| {
        assert t.blocks[t.blockHeights[blk.prevId]].hash == blk.prevId;
      }
    }
  }

  /** What the store holds for a chain: no gaps, every output of a stored
      transaction filed and every filed output owned by one; the chain's blocks,
      linked parent to child; exactly the chain's transactions, in order; and as
      spent keys exactly the chain's key images, none of which occurs twice. */
  ghost predicate Holds(t: Tables, chain: seq<Entry>) {
    && Sound(t) && Chained(t)
    && t.blocks == ChainRows(chain)
    && Logs(t, ChainLog(chain))
    && t.spentKeys == Elements(ChainImages(chain))
    && Distinct(ChainImages(chain))
  }

  lemma HoldsMore(t: Tables, chain: seq<Entry>, e: Entry)
    requires Holds(t, chain) && AllTxsSupported(e.AllTxs()) && AddEntry(t, e).Ok?
    ensures Holds(AddEntry(t, e).value, chain + [e])
  {
    hide AddBlock, Sound, Dense, Chained, Logs, AllTxsStorable, TxsImages, TxsLog;
    assert (chain + [e])[..|chain|] == chain;
    assert Dense(t) by { SoundParts(t); }
    AddBlockAccepts(t, e.blk, e.info, e.txs);
    ChainedMore(t, AddEntry(t, e).value, e.blk, e.info);
    AddBlockLogs(t, e.blk, e.info, e.txs, ChainLog(chain));
    assert Sound(AddEntry(t, e).value) by { LogsSound(AddEntry(t, e).value, ChainLog(chain + [e])); }
    DistinctSplit(ChainImages(chain), TxsImages([e.blk.minerTx] + e.txs));
  }

  lemma LogsSound(t: Tables, log: seq<Logged>)
    requires Dense(t) && Logs(t, log)
    ensures Sound(t)
  {
    LogsLinked(t, log);
  }

  lemma SoundParts(t: Tables)
    requires Sound(t)
    ensures Dense(t)
  {
  }

  /** The chain determines the store: what `Holds` says leaves nothing open. */
  lemma HoldsDetermines(t: Tables, u: Tables, chain: seq<Entry>)
    requires Holds(t, chain) && Holds(u, chain)
    ensures t == u
  {
    hide Sound, Dense, Logs, Chained;
    SoundParts(t);
    SoundParts(u);
    SameLog(t, u, ChainLog(chain));
    SameHeights(t, u);
  }

  lemma SameHeights(t: Tables, u: Tables)
    requires Chained(t) && Chained(u) && t.blocks == u.blocks
    ensures t.blockHeights == u.blockHeights
  {
    forall h | h in t.blockHeights ensures h in u.blockHeights && u.blockHeights[h] == t.blockHeights[h] {
      assert t.blocks[t.blockHeights[h]].hash == h;
    }
    forall h | h in u.blockHeights ensures h in t.blockHeights {
      assert u.blocks[u.blockHeights[h]].hash == h;
    }
  }

  lemma EmptyHolds()
    ensures Holds(EMPTY, [])
  {
    assert forall a :: SlotsOf(EMPTY.outs.amounts, a) == {};
    assert Elements(ChainImages([])) == {};
  }

  lemma {:induction false} ReplayHolds(chain: seq<Entry>)
    requires forall e :: e in chain ==> AllTxsSupported(e.AllTxs())
    requires Replay(AddEntry, EMPTY, chain).Ok?
    ensures Holds(Replay(AddEntry, EMPTY, chain).value, chain)
  {
    hide AddEntry, Holds;
    if chain == [] {
      EmptyHolds();
    } else {
      var n := |chain| - 1;
      ReplayHolds(chain[..n]);
      assert chain == chain[..n] + [chain[n]];
      HoldsMore(Replay(AddEntry, EMPTY, chain[..n]).value, chain[..n], chain[n]);
    }
  }

  /** After every undoable run of additions and pops the store holds exactly the
      blocks, transactions, outputs and key images of the surviving chain. */
  lemma RunHolds(ops: seq<Op<Entry>>)
    requires Undoable(ops)
    ensures Holds(Run(AddEntry, PopEntry, EMPTY, ops), Surviving(AddEntry, EMPTY, ops))
  {
    hide AddEntry, PopEntry, Holds, Undoable;
    BlockRunIsReplay(ops);
    SurvivorsSupported(Surviving(AddEntry, EMPTY, ops));
    ReplayHolds(Surviving(AddEntry, EMPTY, ops));
  }

  /** The same for runs of blocks of ordinary transactions: the store is what the
      surviving blocks build, and holds just what they hold. */
  lemma OrdinaryRunHolds(ops: seq<Op<Entry>>)
    requires forall op :: op in ops && op.Push? ==>
      forall tx :: tx in op.e.AllTxs() ==> AllSupported(tx.vin) && Ordinary(tx)
    ensures var t, chain := Run(AddEntry, PopEntry, EMPTY, ops), Surviving(AddEntry, EMPTY, ops);
      Replay(AddEntry, EMPTY, chain) == Ok(t) && Holds(t, chain)
  {
    hide AddEntry, PopEntry, Holds, Undoable;
    forall op | op in ops && op.Push? ensures AllTxsSupported(op.e.AllTxs()) && AllSidesAgree(op.e.AllTxs()) {
      OrdinaryAgrees(op.e.AllTxs());
    }
    AgreeingIsUndoable(ops);
    BlockRunIsReplay(ops);
    RunHolds(ops);
  }

  function OutputCount(log: seq<Logged>): (n: nat) {
    if log == [] then 0 else OutputCount(log[..|log| - 1]) + |log[|log| - 1].tx.vout|
  }

  lemma {:induction false} OutputCountIs(log: seq<Logged>)
    ensures |LogAmounts(log)| == OutputCount(log)
  {
    if log != [] {
      OutputCountIs(log[..|log| - 1]);
    }
  }

  /** The row of output `j` of transaction `i` in a store that holds the chain. It has
      the key, the unlock time and the height of its block, and an id that counts all
      outputs before it. A version-2 transaction with a generating input has its
      outputs under amount 0, with the commitment of the true amount and identity mask.
      All other outputs are under their amount; if that is 0, with the commitment in the
      signatures, and otherwise with none. */
  lemma RowsOfChain(t: Tables, chain: seq<Entry>, i: nat, j: nat)
    requires Holds(t, chain) && i < |ChainLog(chain)| && j < |ChainLog(chain)[i].tx.vout|
    ensures i in t.txOutputs && j < |t.txOutputs[i]|
    ensures var e := ChainLog(chain)[i];
      var out, asRct, id := e.tx.vout[j], e.tx.version == 2 && Gen in e.tx.vin, OutputCount(ChainLog(chain)[..i]) + j;
      var s := Slot(if asRct then 0 else out.amount, t.txOutputs[i][j]);
      && s in t.outs.amounts && id in t.outs.txs && t.outs.txs[id] == OutTx(e.hash, j)
      && t.outs.amounts[s] == OutKey(id, out.key, e.tx.unlockTime, e.height,
           if asRct then Some(ZeroCommit(out.amount))
           else if out.amount == 0 && e.tx.version > 1 then Some(out.mask)
           else None)
  {
    hide Sound, Chained, ChainLog, LogAmounts, Count, IndicesAfter;
    var log := ChainLog(chain);
    OutputCountIs(log[..i]);
    assert LogsAt(t, log[i], i, LogAmounts(log[..i]));
    assert OutputAt(t.outs, log[i], t.txOutputs[i], |LogAmounts(log[..i])|, j);
  }

  lemma SurvivorsSupported(chain: seq<Entry>)
    requires GoodChain(AddEntry, EMPTY, Restorable, chain, 0)
    ensures forall e :: e in chain ==> AllTxsSupported(e.AllTxs())
  {
    hide AddEntry;
    forall i: nat | i < |chain| ensures AllTxsSupported(chain[i].AllTxs()) {
      assert Restorable(Replay(AddEntry, EMPTY, chain[..i]).value, chain[i]);
    }
  }

  predicate IsV2Coinbase(tx: Transaction) {
    tx.version == 2 && Gen in tx.vin
  }

  /** Over every such run: the outputs of each amount are numbered 0 to n-1, each
      stored transaction has one recorded index per output, and every output of
      a version-2 transaction with a generating input lies among those of amount 0. */
  lemma RunBuckets(ops: seq<Op<Entry>>)
    requires Undoable(ops)
    ensures var t := Run(AddEntry, PopEntry, EMPTY, ops);
      && (forall s :: s in t.outs.amounts <==> s.index < Count(t.outs, s.amount))
      && (forall h :: h in t.txIndices ==> Recorded(t, h))
      && forall h, j: nat :: h in t.txIndices && j < |StoredTx(t, h).vout| && IsV2Coinbase(StoredTx(t, h)) ==>
        SlotFor(t, h, j).amount == 0 && Filed(t, h, j)
  {
    RunHolds(ops);
    BucketsOf(Run(AddEntry, PopEntry, EMPTY, ops));
  }

  lemma BucketsOf(t: Tables)
    requires Sound(t)
    ensures forall s :: s in t.outs.amounts <==> s.index < Count(t.outs, s.amount)
    ensures forall h :: h in t.txIndices ==> Recorded(t, h)
    ensures forall h, j: nat :: h in t.txIndices && j < |StoredTx(t, h).vout| && IsV2Coinbase(StoredTx(t, h)) ==>
      SlotFor(t, h, j).amount == 0 && Filed(t, h, j)
  {
    forall h, j: nat | h in t.txIndices && j < |StoredTx(t, h).vout| && IsV2Coinbase(StoredTx(t, h))
      ensures SlotFor(t, h, j).amount == 0 && Filed(t, h, j)
    {
      assert Filed(t, h, j);
    }
  }

  // ---- Instances of failure ------------------------------------------------------------

  /** A version-2 transaction with a generating input and a key input, and an
      output of amount 5: it is filed under amount 0 and looked for under amount
      5, so that it can be added to an empty store but not removed from it. */
  lemma DisagreementExample(tx: Transaction, k: KeyImage, key: PublicKey, mask: Commitment, hash: Hash)
    requires tx == Transaction(2, 0, [Gen, ToKey(k)], [TxOut(5, true, key, mask)])
    ensures AllSupported(tx.vin) && AddTx(EMPTY, tx, hash).Ok?
    ensures RemoveTx(AddTx(EMPTY, tx, hash).value, hash) != Ok(EMPTY)
  {
    EmptyHolds();
    assert tx.vin[..1] == [Gen] && tx.vin[..1][..0] == [];
    assert Images(tx.vin[..1]) == [];
    assert Images(tx.vin) == [k];
    assert tx.vin[0] == Gen && tx.vout[0] in tx.vout;
    assert !SidesAgree(tx);
    AddTxAccepts(EMPTY, tx, hash);
    AddThenRemoveTx(EMPTY, tx, hash);
  }

  /** A transaction with an unsupported input that repeats a spent key image after
      it is refused without an error, and un-spends that key image. */
  lemma RollbackExample(t: Tables, tx: Transaction, k: KeyImage, hash: Hash)
    requires k in t.spentKeys && tx.vin == [Unsupported, ToKey(k)]
    ensures AddTx(t, tx, hash) == Ok(t.(spentKeys := t.spentKeys - {k}))
  {
    assert tx.vin[..0] == [];
    assert tx.vin[0..] == tx.vin && tx.vin[..1] == [Unsupported] && tx.vin[..1][..0] == [];
    assert Images(tx.vin[..1]) == [];
    assert Images(tx.vin) == [k];
    assert Elements(Images(tx.vin)) == {k};
    UnsupportedRollback(t, tx, hash, 0);
  }

  /** One output filed under `filed` and looked for under `sought`. */
  ghost predicate OneOutput(tx: Transaction, filed: nat, sought: nat) {
    && AllSupported(tx.vin) && |tx.vout| == 1
    && FiledAmount(tx, Gen in tx.vin, 0) == filed && SoughtAmount(tx, 0) == sought
    && Storable(tx, 0)
  }

  lemma AddOneOutput(t: Tables, tx: Transaction, hash: Hash, filed: nat, sought: nat) returns (key: OutKey)
    requires Dense(t) && OneOutput(tx, filed, sought)
    ensures var index := Count(t.outs, filed);
      NewOutputs(t, tx, hash) == Ok(
        (Outputs(t.outs.txs[|t.outs.txs| := OutTx(hash, 0)], t.outs.amounts[Slot(filed, index) := key]), [index]))
    ensures key.outputId == |t.outs.txs|
  {
    var o := OutputOf(|t.blocks|, hash, tx, Gen in tx.vin, 0);
    AddOutputAccepts(t.outs, o);
    AddOutputInserts(t.outs, o);
    var v := AddTxOutput(t.outs, |t.blocks|, hash, tx, Gen in tx.vin, 0);
    assert AddOutputs(t.outs, |t.blocks|, hash, tx, Gen in tx.vin, 0) == Ok((t.outs, []));
    key := v.value.0.amounts[Slot(filed, Count(t.outs, filed))];
    assert [] + [v.value.1] == [v.value.1];
  }

  lemma RemoveOneOutput(outs: Outputs, tx: Transaction, filed: nat, sought: nat, index: nat)
    requires OneOutput(tx, filed, sought)
    ensures RemoveOutputs(outs, tx, [index], 1) == RemoveOutput(outs, sought, index)
  {
    assert RemoveOutput(outs, sought, index).Ok? ==>
      RemoveOutputs(RemoveOutput(outs, sought, index).value, tx, [index], 0) == RemoveOutput(outs, sought, index);
  }

  /** An output table with one output, filed under `amount` with index 0. */
  ghost predicate Lone(outs: Outputs, id: nat, amount: nat) {
    && outs.txs.Keys == {id} && outs.amounts.Keys == {Slot(amount, 0)}
    && outs.amounts[Slot(amount, 0)].outputId == id
  }

  lemma AddToEmpty(a: Transaction, ha: Hash)
    requires OneOutput(a, 0, 5) && Fresh(EMPTY, a, ha)
    ensures AddTx(EMPTY, a, ha).Ok? && Dense(AddTx(EMPTY, a, ha).value)
    ensures var u := AddTx(EMPTY, a, ha).value; Lone(u.outs, 0, 0) && u == Stored(EMPTY, a, ha, u.outs, [0])
  {
    hide AddTx, AddOutputs, Linked;
    EmptyHolds();
    assert SlotsOf(EMPTY.outs.amounts, 0) == {};
    var key := AddOneOutput(EMPTY, a, ha, 0, 5);
    AddTxStores(EMPTY, a, ha);
    AddTxAccepts(EMPTY, a, ha);
  }

  lemma LoneCounts(outs: Outputs)
    requires Lone(outs, 0, 0)
    ensures |outs.txs| == 1 && Count(outs, 5) == 0
  {
    assert |outs.txs.Keys| == 1;
    assert SlotsOf(outs.amounts, 5) == {};
  }

  lemma SwapLone(outs: Outputs, key: OutKey, ot: OutTx) returns (rest: Outputs)
    requires Lone(outs, 0, 0) && key.outputId == 1
    ensures RemoveOutput(Outputs(outs.txs[1 := ot], outs.amounts[Slot(5, 0) := key]), 0, 0) == Ok(rest)
    ensures Lone(rest, 1, 5)
  {
    rest := RemoveOutput(Outputs(outs.txs[1 := ot], outs.amounts[Slot(5, 0) := key]), 0, 0).value;
  }

  /** Adding `b` and removing it takes away the output of the transaction before
      it and leaves that of `b`. */
  lemma AddRemoveSwaps(u: Tables, b: Transaction, hb: Hash) returns (outs: Outputs)
    requires Dense(u) && Lone(u.outs, 0, 0) && OneOutput(b, 5, 0) && Fresh(u, b, hb)
    ensures AddTx(u, b, hb).Ok?
    ensures RemoveTx(AddTx(u, b, hb).value, hb) == Ok(u.(outs := outs))
    ensures Lone(outs, 1, 5)
  {
    hide AddTx, RemoveTx, AddOutputs, RemoveOutputs, RemoveOutput, Linked, Dense, Fresh, Lone, Count, Stored;
    LoneCounts(u.outs);
    var key := AddOneOutput(u, b, hb, 5, 0);
    AddTxStores(u, b, hb);
    var outsB := NewOutputs(u, b, hb).value.0;
    RemoveStored(u, b, hb, outsB, [0]);
    RemoveOneOutput(outsB, b, 5, 0, 0);
    outs := SwapLone(u.outs, key, OutTx(hb, 0));
  }

  /** Disagreements can cancel: of two transactions added to an empty store, one
      files its output under amount 0 and looks for it under 5, the other the
      other way round. Removing both restores the store, though removing the
      second alone does not undo its addition. */
  lemma DisagreementsCancel(a: Transaction, b: Transaction, ha: Hash, hb: Hash)
    requires OneOutput(a, 0, 5) && OneOutput(b, 5, 0) && ha != hb
    requires Fresh(EMPTY, a, ha) && Distinct(Images(b.vin)) && Elements(Images(b.vin)) !! Elements(Images(a.vin))
    ensures AddTx(EMPTY, a, ha).Ok?
    ensures var u := AddTx(EMPTY, a, ha).value;
      && AddTx(u, b, hb).Ok?
      && RemoveTx(AddTx(u, b, hb).value, hb).Ok?
      && RemoveTx(AddTx(u, b, hb).value, hb) != Ok(u)
      && RemoveTx(RemoveTx(AddTx(u, b, hb).value, hb).value, ha) == Ok(EMPTY)
  {
    hide AddTx, RemoveTx, RemoveOutputs;
    AddToEmpty(a, ha);
    var u := AddTx(EMPTY, a, ha).value;
    FreshAfter(u, b, hb);
    var outs := AddRemoveSwaps(u, b, hb);
    assert u.(outs := outs) == Stored(EMPTY, a, ha, outs, [0]);
    assert Slot(5, 0) in outs.amounts && Slot(5, 0) !in u.outs.amounts;
    RemoveStored(EMPTY, a, ha, outs, [0]);
    RemoveOneOutput(outs, a, 0, 5, 0);
    assert outs.txs - {1} == map[] && outs.amounts - {Slot(5, 0)} == map[];
  }

  lemma FreshAfter(u: Tables, b: Transaction, hb: Hash)
    requires Dense(u) && Distinct(Images(b.vin)) && Elements(Images(b.vin)) !! u.spentKeys && hb !in u.txIndices
    ensures Fresh(u, b, hb)
  {
  }
}
