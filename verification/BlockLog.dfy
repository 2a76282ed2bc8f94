/** Which transactions and outputs a store holds, and under which ids and indices,
    told from the order in which they were added. */
module BlockLog {
  import opened SharedTypes
  import opened BlockTables
  import opened BlockOps
  import opened BlockRoundTrip
  import opened BlockChain
  import opened BlockBalance
  import opened BlockInvariant
  import opened BlockAcceptance

  /** A transaction, its hash and the height of its block. */
  datatype Logged = Logged(tx: Transaction, hash: Hash, height: nat)

  /** The amounts under which the outputs of the log are filed, in order. */
  function LogAmounts(log: seq<Logged>): (s: seq<nat>) {
    if log == [] then []
    else var n := |log| - 1; LogAmounts(log[..n]) + FiledAmounts(log[n].tx, |log[n].tx.vout|)
  }

  /** The indices of outputs filed under `amounts` after others under `before`:
      each gets the number of earlier ones of its amount. */
  function IndicesAfter(before: seq<nat>, amounts: seq<nat>): (s: seq<nat>)
    ensures |s| == |amounts|
  {
    if amounts == [] then []
    else
      var n := |amounts| - 1;
      IndicesAfter(before, amounts[..n]) + [Occurrences(before + amounts[..n], amounts[n])]
  }

  /** The store holds exactly the transactions and outputs of the log. The ids of
      transactions are the positions in the log, and those of outputs their
      positions among all outputs. */
  ghost predicate Logs(t: Tables, log: seq<Logged>) {
    && |t.txs| == |log| && |t.outs.txs| == |LogAmounts(log)|
    && Counted(t.outs, LogAmounts(log)) && EachLogged(t, log) && HashesLogged(t, log)
  }

  ghost predicate Counted(outs: Outputs, amounts: seq<nat>) {
    forall a :: Count(outs, a) == Occurrences(amounts, a)
  }

  ghost predicate EachLogged(t: Tables, log: seq<Logged>) {
    forall i: nat :: i < |log| ==> LogsAt(t, log[i], i, LogAmounts(log[..i]))
  }

  ghost predicate HashesLogged(t: Tables, log: seq<Logged>) {
    forall h :: h in t.txIndices ==> exists i: nat :: i < |log| && log[i].hash == h
  }

  /** Transaction `i` is found under its hash with its unlock time and height, and
      its outputs are filed after those under the amounts `before`. */
  ghost predicate LogsAt(t: Tables, e: Logged, i: nat, before: seq<nat>) {
    && i in t.txs && t.txs[i] == e.tx
    && e.hash in t.txIndices && t.txIndices[e.hash] == TxIndex(i, e.tx.unlockTime, e.height)
    && i in t.txOutputs && t.txOutputs[i] == IndicesAfter(before, FiledAmounts(e.tx, |e.tx.vout|))
    && forall j: nat :: j < |e.tx.vout| ==> OutputAt(t.outs, e, t.txOutputs[i], |before|, j)
  }

  /** Output `j` has its row in output_txs, under the id that follows from the
      number of earlier outputs, and its row under its amount and index. */
  ghost predicate OutputAt(outs: Outputs, e: Logged, indices: seq<nat>, first: nat, j: nat)
    requires j < |e.tx.vout| && j < |indices|
  {
    var s := Slot(FiledAmount(e.tx, Gen in e.tx.vin, j), indices[j]);
    && first + j in outs.txs && outs.txs[first + j] == OutTx(e.hash, j)
    && s in outs.amounts && outs.amounts[s] == Row(e.tx, Gen in e.tx.vin, e.height, first, j)
  }

  // ---- One transaction more ---------------------------------------------------------------

  lemma {:induction false} OccurrencesSplit(a: seq<nat>, b: seq<nat>, x: nat)
    ensures Occurrences(a + b, x) == Occurrences(a, x) + Occurrences(b, x)
  {
    if b == [] {
      assert a + b == a;
    } else {
      assert (a + b)[..|a + b| - 1] == a + b[..|b| - 1];
      OccurrencesSplit(a, b[..|b| - 1], x);
    }
  }

  lemma {:induction false} IndicesFromCounts(outs: Outputs, before: seq<nat>, amounts: seq<nat>)
    requires forall a :: Count(outs, a) == Occurrences(before, a)
    ensures Indices(outs, amounts) == IndicesAfter(before, amounts)
  {
    if amounts != [] {
      var n := |amounts| - 1;
      IndicesFromCounts(outs, before, amounts[..n]);
      OccurrencesSplit(before, amounts[..n], amounts[n]);
    }
  }

  /** The indices and counts that a transaction's outputs bring. */
  lemma NewOutputsCount(t: Tables, tx: Transaction, hash: Hash, before: seq<nat>)
    requires NewOutputs(t, tx, hash).Ok? && Counted(t.outs, before)
    ensures var v, amounts := NewOutputs(t, tx, hash).value, FiledAmounts(tx, |tx.vout|);
      v.1 == IndicesAfter(before, amounts) && Counted(v.0, before + amounts)
  {
    hide AddOutputs, AddAll, Count;
    var amounts := FiledAmounts(tx, |tx.vout|);
    var os := OutputsOf(|t.blocks|, hash, tx, |tx.vout|);
    AddOutputsIsAll(t.outs, |t.blocks|, hash, tx, |tx.vout|);
    AmountsOfOutputs(|t.blocks|, hash, tx, |tx.vout|);
    AddAllIndices(t.outs, os);
    IndicesFromCounts(t.outs, before, amounts);
    forall a ensures Count(NewOutputs(t, tx, hash).value.0, a) == Occurrences(before + amounts, a) {
      AddAllCounts(t.outs, os, a);
      OccurrencesSplit(before, amounts, a);
    }
  }

  lemma OldStays(t: Tables, u: Tables, tx: Transaction, hash: Hash, outs: Outputs, indices: seq<nat>, e: Logged, i: nat,
                 before: seq<nat>)
    requires u == Stored(t, tx, hash, outs, indices) && hash !in t.txIndices && i != |t.txs|
    requires Extends(t.outs, outs, indices, |t.blocks|, hash, tx, Gen in tx.vin, |tx.vout|)
    requires LogsAt(t, e, i, before)
    ensures LogsAt(u, e, i, before)
  {
    hide Images, HasRow, FiledAmount, RowCommitment, IndicesAfter;
    forall j: nat | j < |e.tx.vout| ensures OutputAt(u.outs, e, u.txOutputs[i], |before|, j) {
      assert OutputAt(t.outs, e, t.txOutputs[i], |before|, j);
    }
  }

  lemma NewIsThere(t: Tables, u: Tables, tx: Transaction, hash: Hash, outs: Outputs, indices: seq<nat>,
                   before: seq<nat>)
    requires u == Stored(t, tx, hash, outs, indices) && |t.outs.txs| == |before|
    requires Extends(t.outs, outs, indices, |t.blocks|, hash, tx, Gen in tx.vin, |tx.vout|)
    requires indices == IndicesAfter(before, FiledAmounts(tx, |tx.vout|))
    ensures LogsAt(u, Logged(tx, hash, |t.blocks|), |t.txs|, before)
  {
    hide Images, FiledAmount, RowCommitment, IndicesAfter;
    var e := Logged(tx, hash, |t.blocks|);
    forall j: nat | j < |tx.vout| ensures OutputAt(u.outs, e, indices, |before|, j) {
      assert HasRow(t.outs, outs, indices, |t.blocks|, hash, tx, Gen in tx.vin, j);
    }
  }

  lemma LogAmountsMore(log: seq<Logged>, e: Logged)
    ensures LogAmounts(log + [e]) == LogAmounts(log) + FiledAmounts(e.tx, |e.tx.vout|)
  {
    assert (log + [e])[..|log|] == log;
  }

  lemma StoredRows(t: Tables, tx: Transaction, hash: Hash, outs: Outputs, indices: seq<nat>)
    requires |t.txs| !in t.txs
    ensures var u := Stored(t, tx, hash, outs, indices);
      && u.outs == outs && |u.txs| == |t.txs| + 1 && u.txIndices.Keys == t.txIndices.Keys + {hash}
      && |t.txs| in u.txOutputs && u.txOutputs[|t.txs|] == indices
  {
    hide Images;
  }

  lemma LogsMore(t: Tables, u: Tables, tx: Transaction, hash: Hash, log: seq<Logged>)
    requires Logs(t, log) && hash !in t.txIndices && |t.txs| !in t.txs && NewOutputs(t, tx, hash).Ok?
    requires u == Stored(t, tx, hash, NewOutputs(t, tx, hash).value.0, NewOutputs(t, tx, hash).value.1)
    requires Extends(t.outs, u.outs, u.txOutputs[|t.txs|], |t.blocks|, hash, tx, Gen in tx.vin, |tx.vout|)
    ensures Logs(u, log + [Logged(tx, hash, |t.blocks|)])
  {
    hide AddOutputs, Extends, LogAmounts, IndicesAfter, NewOutputs, Stored, FiledAmounts;
    hide Counted, EachLogged, HashesLogged;
    var e, indices := Logged(tx, hash, |t.blocks|), NewOutputs(t, tx, hash).value.1;
    StoredRows(t, tx, hash, NewOutputs(t, tx, hash).value.0, indices);
    LogAmountsMore(log, e);
    NewOutputsCount(t, tx, hash, LogAmounts(log));
    AllLogged(t, u, tx, hash, indices, log);
    ExtendsCount(t.outs, u.outs, indices, |t.blocks|, hash, tx);
    HashesMore(t, u, e, log);
  }

  lemma AllLogged(t: Tables, u: Tables, tx: Transaction, hash: Hash, indices: seq<nat>, log: seq<Logged>)
    requires EachLogged(t, log) && hash !in t.txIndices && |t.txs| !in t.txs && |t.txs| == |log|
    requires u == Stored(t, tx, hash, u.outs, indices) && |t.outs.txs| == |LogAmounts(log)|
    requires indices == IndicesAfter(LogAmounts(log), FiledAmounts(tx, |tx.vout|))
    requires Extends(t.outs, u.outs, indices, |t.blocks|, hash, tx, Gen in tx.vin, |tx.vout|)
    ensures EachLogged(u, log + [Logged(tx, hash, |t.blocks|)])
  {
    hide Images, Stored, Extends, LogsAt, Count, IndicesAfter, LogAmounts;
    var log' := log + [Logged(tx, hash, |t.blocks|)];
    forall i: nat | i < |log'| ensures LogsAt(u, log'[i], i, LogAmounts(log'[..i])) {
      if i < |log| {
        assert log'[..i] == log[..i];
        OldStays(t, u, tx, hash, u.outs, indices, log[i], i, LogAmounts(log[..i]));
      } else {
        assert log'[..i] == log;
        NewIsThere(t, u, tx, hash, u.outs, indices, LogAmounts(log));
      }
    }
  }

  lemma ExtendsCount(outs: Outputs, u: Outputs, indices: seq<nat>, height: nat, hash: Hash, tx: Transaction)
    requires Extends(outs, u, indices, height, hash, tx, Gen in tx.vin, |tx.vout|)
    ensures |u.txs| == |outs.txs| + |tx.vout|
  {
  }

  lemma HashesMore(t: Tables, u: Tables, e: Logged, log: seq<Logged>)
    requires u.txIndices.Keys == t.txIndices.Keys + {e.hash} && HashesLogged(t, log)
    ensures HashesLogged(u, log + [e])
  {
    var log' := log + [e];
    forall h | h in u.txIndices ensures exists i: nat :: i < |log'| && log'[i].hash == h {
      if h == e.hash {
        assert log'[|log|].hash == h;
      } else {
        var i: nat :| i < |log| && log[i].hash == h;
        assert log'[i].hash == h;
      }
    }
  }

  lemma AddTxLogs(t: Tables, tx: Transaction, hash: Hash, log: seq<Logged>)
    requires Dense(t) && Logs(t, log) && AllSupported(tx.vin) && AddTx(t, tx, hash).Ok?
    ensures Logs(AddTx(t, tx, hash).value, log + [Logged(tx, hash, |t.blocks|)])
    ensures Dense(AddTx(t, tx, hash).value) && AddTx(t, tx, hash).value.blocks == t.blocks
  {
    hide AddTx, Logs, AddOutputs, Images, DenseOutputs, Extends;
    AddTxAccepts(t, tx, hash);
    AddTxStores(t, tx, hash);
    AddOutputsDense(t.outs, |t.blocks|, hash, tx, |tx.vout|);
    LogsMore(t, AddTx(t, tx, hash).value, tx, hash, log);
  }

  // ---- Finding an output in the log ----------------------------------------------------------

  lemma {:induction false} LocateId(log: seq<Logged>, id: nat) returns (i: nat, j: nat)
    requires id < |LogAmounts(log)|
    ensures i < |log| && j < |log[i].tx.vout| && |LogAmounts(log[..i])| + j == id
  {
    var n := |log| - 1;
    if id < |LogAmounts(log[..n])| {
      i, j := LocateId(log[..n], id);
      assert log[..n][..i] == log[..i];
    } else {
      i, j := n, id - |LogAmounts(log[..n])|;
    }
  }

  lemma {:induction false} LocateSlot(log: seq<Logged>, amount: nat, index: nat) returns (i: nat, j: nat)
    requires index < Occurrences(LogAmounts(log), amount)
    ensures i < |log| && j < |log[i].tx.vout|
    ensures FiledAmount(log[i].tx, Gen in log[i].tx.vin, j) == amount
    ensures IndicesAfter(LogAmounts(log[..i]), FiledAmounts(log[i].tx, |log[i].tx.vout|))[j] == index
  {
    var n := |log| - 1;
    var before := LogAmounts(log[..n]);
    if index < Occurrences(before, amount) {
      i, j := LocateSlot(log[..n], amount, index);
      assert log[..n][..i] == log[..i];
    } else {
      var tx := log[n].tx;
      var amounts := FiledAmounts(tx, |tx.vout|);
      assert amounts[..|amounts|] == amounts;
      i := n;
      j := LocateIn(before, amounts, |amounts|, amount, index);
      FiledAmountAt(tx, |tx.vout|, j);
    }
  }

  lemma {:induction false} FiledAmountAt(tx: Transaction, n: nat, j: nat)
    requires j < n <= |tx.vout|
    ensures FiledAmounts(tx, n)[j] == FiledAmount(tx, Gen in tx.vin, j)
  {
    if j < n - 1 {
      FiledAmountAt(tx, n - 1, j);
    }
  }

  lemma {:induction false} LocateIn(before: seq<nat>, amounts: seq<nat>, n: nat, amount: nat, index: nat)
    returns (j: nat)
    requires n <= |amounts| && Occurrences(before, amount) <= index < Occurrences(before + amounts[..n], amount)
    ensures j < n && amounts[j] == amount && IndicesAfter(before, amounts)[j] == index
  {
    assert before + amounts[..0] == before;
    assert (before + amounts[..n])[..|before| + n - 1] == before + amounts[..n - 1];
    if index < Occurrences(before + amounts[..n - 1], amount) {
      j := LocateIn(before, amounts, n - 1, amount, index);
    } else {
      j := n - 1;
      IndexAfter(before, amounts, j);
    }
  }

  lemma {:induction false} IndexAfter(before: seq<nat>, amounts: seq<nat>, j: nat)
    requires j < |amounts|
    ensures IndicesAfter(before, amounts)[j] == Occurrences(before + amounts[..j], amounts[j])
  {
    var n := |amounts| - 1;
    if j < n {
      IndexAfter(before, amounts[..n], j);
      assert amounts[..n][..j] == amounts[..j];
    }
  }

  // ---- The log leaves nothing open -------------------------------------------------------------

  lemma SameOutputTxs(t: Tables, u: Tables, log: seq<Logged>, id: nat)
    requires Dense(t) && Dense(u) && Logs(t, log) && Logs(u, log)
    ensures id in t.outs.txs <==> id in u.outs.txs
    ensures id in t.outs.txs ==> t.outs.txs[id] == u.outs.txs[id]
  {
    hide Count, IndicesAfter, LogAmounts;
    if id in t.outs.txs {
      var i, j := LocateId(log, id);
      assert LogsAt(t, log[i], i, LogAmounts(log[..i])) && LogsAt(u, log[i], i, LogAmounts(log[..i]));
      assert OutputAt(t.outs, log[i], t.txOutputs[i], |LogAmounts(log[..i])|, j);
      assert OutputAt(u.outs, log[i], u.txOutputs[i], |LogAmounts(log[..i])|, j);
    }
  }

  lemma SameOutputAmounts(t: Tables, u: Tables, log: seq<Logged>, s: Slot)
    requires Dense(t) && Dense(u) && Logs(t, log) && Logs(u, log)
    ensures s in t.outs.amounts <==> s in u.outs.amounts
    ensures s in t.outs.amounts ==> t.outs.amounts[s] == u.outs.amounts[s]
  {
    hide Count, IndicesAfter, LogAmounts;
    if s in t.outs.amounts {
      var i, j := LocateSlot(log, s.amount, s.index);
      assert LogsAt(t, log[i], i, LogAmounts(log[..i])) && LogsAt(u, log[i], i, LogAmounts(log[..i]));
      assert OutputAt(t.outs, log[i], t.txOutputs[i], |LogAmounts(log[..i])|, j);
      assert OutputAt(u.outs, log[i], u.txOutputs[i], |LogAmounts(log[..i])|, j);
    }
  }

  lemma SameTx(t: Tables, u: Tables, log: seq<Logged>, i: nat)
    requires Dense(t) && Dense(u) && Logs(t, log) && Logs(u, log)
    ensures (i in t.txs <==> i in u.txs) && (i in t.txOutputs <==> i in u.txOutputs)
    ensures i in t.txs ==> t.txs[i] == u.txs[i]
    ensures i in t.txOutputs ==> t.txOutputs[i] == u.txOutputs[i]
  {
    hide DenseOutputs, Count, IndicesAfter, LogAmounts, OutputAt;
    if i < |log| {
      assert LogsAt(t, log[i], i, LogAmounts(log[..i])) && LogsAt(u, log[i], i, LogAmounts(log[..i]));
    }
  }

  lemma SameTxIndex(t: Tables, u: Tables, log: seq<Logged>, h: Hash)
    requires Logs(t, log) && Logs(u, log) && h in t.txIndices
    ensures h in u.txIndices && t.txIndices[h] == u.txIndices[h]
  {
    hide Count, IndicesAfter, LogAmounts, OutputAt;
    var i: nat :| i < |log| && log[i].hash == h;
    assert LogsAt(t, log[i], i, LogAmounts(log[..i])) && LogsAt(u, log[i], i, LogAmounts(log[..i]));
  }

  lemma SameTxs(t: Tables, u: Tables, log: seq<Logged>)
    requires Dense(t) && Dense(u) && Logs(t, log) && Logs(u, log)
    ensures t.txs == u.txs && t.txOutputs == u.txOutputs && t.txIndices == u.txIndices
  {
    hide Dense, Logs;
    forall i: nat
      ensures (i in t.txs <==> i in u.txs) && (i in t.txOutputs <==> i in u.txOutputs)
      ensures i in t.txs ==> t.txs[i] == u.txs[i]
      ensures i in t.txOutputs ==> t.txOutputs[i] == u.txOutputs[i]
    {
      SameTx(t, u, log, i);
    }
    forall h | h in t.txIndices ensures h in u.txIndices && t.txIndices[h] == u.txIndices[h] {
      SameTxIndex(t, u, log, h);
    }
    forall h | h in u.txIndices ensures h in t.txIndices {
      SameTxIndex(u, t, log, h);
    }
  }

  /** Two gap-free stores with the same log agree on all transactions and outputs. */
  lemma SameLog(t: Tables, u: Tables, log: seq<Logged>)
    requires Dense(t) && Dense(u) && Logs(t, log) && Logs(u, log)
    ensures t.txs == u.txs && t.txOutputs == u.txOutputs && t.txIndices == u.txIndices && t.outs == u.outs
  {
    hide Dense, Logs;
    SameTxs(t, u, log);
    forall id: nat
      ensures id in t.outs.txs <==> id in u.outs.txs
      ensures id in t.outs.txs ==> t.outs.txs[id] == u.outs.txs[id]
    {
      SameOutputTxs(t, u, log, id);
    }
    forall s
      ensures s in t.outs.amounts <==> s in u.outs.amounts
      ensures s in t.outs.amounts ==> t.outs.amounts[s] == u.outs.amounts[s]
    {
      SameOutputAmounts(t, u, log, s);
    }
  }

  // ---- Lists and blocks -----------------------------------------------------------------------

  function TxsLog(txs: seq<Transaction>, hashes: seq<Hash>, height: nat): (log: seq<Logged>) {
    if txs == [] || |hashes| != |txs| then []
    else
      var n := |txs| - 1;
      TxsLog(txs[..n], hashes[..n], height) + [Logged(txs[n], hashes[n], height)]
  }

  lemma {:induction false} AddTxsLogs(t: Tables, txs: seq<Transaction>, hashes: seq<Hash>, log: seq<Logged>)
    requires |txs| == |hashes| && Dense(t) && Logs(t, log) && AllTxsSupported(txs) && AddTxs(t, txs, hashes).Ok?
    ensures Logs(AddTxs(t, txs, hashes).value, log + TxsLog(txs, hashes, |t.blocks|))
    ensures Dense(AddTxs(t, txs, hashes).value) && AddTxs(t, txs, hashes).value.blocks == t.blocks
  {
    hide AddTx, Dense, Logs;
    if txs == [] {
      assert log + [] == log;
    } else {
      var n := |txs| - 1;
      var front := log + TxsLog(txs[..n], hashes[..n], |t.blocks|);
      AddTxsLogs(t, txs[..n], hashes[..n], log);
      AddTxLogs(AddTxs(t, txs[..n], hashes[..n]).value, txs[n], hashes[n], front);
      assert front + [Logged(txs[n], hashes[n], |t.blocks|)] == log + TxsLog(txs, hashes, |t.blocks|);
    }
  }

  lemma LogsIgnoreBlocks(t: Tables, u: Tables, log: seq<Logged>)
    requires Logs(t, log) && u == t.(blocks := u.blocks, blockHeights := u.blockHeights)
    ensures Logs(u, log)
  {
    hide Count, IndicesAfter, OutputAt;
    forall i: nat | i < |log| ensures LogsAt(u, log[i], i, LogAmounts(log[..i])) {
      assert LogsAt(t, log[i], i, LogAmounts(log[..i]));
    }
  }

  /** Adding a block adds its transactions to the log, the miner transaction first. */
  lemma AddBlockLogs(t: Tables, blk: Block, info: BlockInfo, txs: seq<Transaction>, log: seq<Logged>)
    requires Dense(t) && Logs(t, log) && AllTxsSupported([blk.minerTx] + txs) && AddBlock(t, blk, info, txs).Ok?
    ensures Logs(AddBlock(t, blk, info, txs).value,
                 log + TxsLog([blk.minerTx] + txs, [blk.minerTxHash] + blk.txHashes, |t.blocks|))
  {
    hide AddTx, AddTxs, Dense, Logs, TxsLog;
    AddTxsCons(t, blk.minerTx, blk.minerTxHash, txs, blk.txHashes);
    var all, hashes := [blk.minerTx] + txs, [blk.minerTxHash] + blk.txHashes;
    AddTxsLogs(t, all, hashes, log);
    LogsIgnoreBlocks(AddTxs(t, all, hashes).value, AddBlock(t, blk, info, txs).value,
                     log + TxsLog(all, hashes, |t.blocks|));
  }
}
