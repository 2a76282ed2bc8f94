/** What every store built by additions keeps, and when an addition is accepted. */
module BlockInvariant {
  import opened SharedTypes
  import opened BlockTables
  import opened BlockOps
  import opened BlockRoundTrip

  // ---- Outputs: no gaps ----------------------------------------------------------

  /** Output ids are 0 to n-1, and so are the indices within each amount. */
  ghost predicate DenseOutputs(outs: Outputs) {
    && (forall i: nat :: i in outs.txs <==> i < |outs.txs|)
    && forall s :: s in outs.amounts <==> s.index < Count(outs, s.amount)
  }

  /** An output of a transaction that the store accepts: one to a key, and of amount 0
      only if the transaction has commitments. */
  predicate Storable(tx: Transaction, j: nat)
    requires j < |tx.vout|
  {
    tx.vout[j].toKey && (tx.vout[j].amount == 0 ==> tx.version > 1)
  }

  lemma AddOutputAccepts(outs: Outputs, o: NewOutput)
    requires DenseOutputs(outs)
    ensures AddOutput(outs, o).Ok? <==> o.out.toKey && (o.out.amount == 0 ==> o.commitment.Some?)
  {
    assert Above(outs.txs.Keys, |outs.txs|);
    assert AboveSlots(SlotsOf(outs.amounts, o.out.amount), Count(outs, o.out.amount));
  }

  lemma InsertedDense(u: Outputs, v: Outputs, slot: Slot, key: OutKey, ot: OutTx)
    requires DenseOutputs(u) && Inserted(u, v, slot, key, ot) && slot.index == Count(u, slot.amount)
    ensures DenseOutputs(v)
  {
    hide Count;
    forall s ensures s in v.amounts <==> s.index < Count(v, s.amount) {
      InsertedCount(u, v, slot, key, ot, s.amount);
      assert s in u.amounts <==> s.index < Count(u, s.amount);
    }
    assert |v.txs| == |u.txs| + 1;
  }

  /** The row that output `j` of a transaction gets, when `first` outputs were
      there before the transaction. */
  ghost function Row(tx: Transaction, miner: bool, height: nat, first: nat, j: nat): (r: OutKey)
    requires j < |tx.vout|
  {
    OutKey(first + j, tx.vout[j].key, tx.unlockTime, height, RowCommitment(tx, miner, j))
  }

  /** `u` is `outs` with the first `n` outputs of the transaction added: old rows
      stay, each new output has its row, and there are no other rows. */
  ghost predicate Extends(outs: Outputs, u: Outputs, indices: seq<nat>, height: nat, hash: Hash, tx: Transaction,
                          miner: bool, n: nat)
    requires n <= |tx.vout|
  {
    && |indices| == n && |u.txs| == |outs.txs| + n
    && (forall i :: i in outs.txs ==> i in u.txs && u.txs[i] == outs.txs[i])
    && (forall s :: s in outs.amounts ==> s in u.amounts && u.amounts[s] == outs.amounts[s])
    && (forall j: nat :: j < n ==> HasRow(outs, u, indices, height, hash, tx, miner, j))
    && forall s :: s in u.amounts && s !in outs.amounts ==>
      exists j: nat :: j < n && s == Slot(FiledAmount(tx, miner, j), indices[j])
  }

  ghost predicate HasRow(outs: Outputs, u: Outputs, indices: seq<nat>, height: nat, hash: Hash, tx: Transaction,
                         miner: bool, j: nat)
    requires j < |tx.vout| && j < |indices|
  {
    var s := Slot(FiledAmount(tx, miner, j), indices[j]);
    && s in u.amounts && u.amounts[s] == Row(tx, miner, height, |outs.txs|, j)
    && |outs.txs| + j in u.txs && u.txs[|outs.txs| + j] == OutTx(hash, j)
  }

  ghost predicate AllStorable(tx: Transaction, n: nat)
    requires n <= |tx.vout|
  {
    forall j: nat :: j < n ==> Storable(tx, j)
  }

  lemma ExtendsMore(outs: Outputs, u: Outputs, indices: seq<nat>, height: nat, hash: Hash, tx: Transaction,
                    miner: bool, n: nat,
                    v: Outputs, index: nat)
    requires n < |tx.vout| && Extends(outs, u, indices, height, hash, tx, miner, n)
    requires Inserted(u, v, Slot(FiledAmount(tx, miner, n), index), Row(tx, miner, height, |outs.txs|, n),
                      OutTx(hash, n))
    ensures Extends(outs, v, indices + [index], height, hash, tx, miner, n + 1)
  {
    var indices' := indices + [index];
    forall j: nat | j < n + 1 ensures HasRow(outs, v, indices', height, hash, tx, miner, j) {
      if j < n {
        assert HasRow(outs, u, indices, height, hash, tx, miner, j);
      }
    }
    forall s | s in v.amounts && s !in outs.amounts
      ensures exists j: nat :: j < n + 1 && s == Slot(FiledAmount(tx, miner, j), indices'[j])
    {
      if s in u.amounts {
        var j: nat :| j < n && s == Slot(FiledAmount(tx, miner, j), indices[j]);
        assert indices'[j] == indices[j];
      } else {
        assert s == Slot(FiledAmount(tx, miner, n), indices'[n]);
      }
    }
  }

  lemma AddTxOutputExtends(outs: Outputs, u: Outputs, indices: seq<nat>, height: nat, hash: Hash, tx: Transaction,
                           miner: bool, n: nat)
    requires n < |tx.vout| && DenseOutputs(u) && Extends(outs, u, indices, height, hash, tx, miner, n)
    ensures AddTxOutput(u, height, hash, tx, miner, n).Ok? <==>
      Storable(tx, n)
    ensures AddTxOutput(u, height, hash, tx, miner, n).Ok? ==>
      var v := AddTxOutput(u, height, hash, tx, miner, n).value;
      DenseOutputs(v.0) && Extends(outs, v.0, indices + [v.1], height, hash, tx, miner, n + 1)
  {
    var o := OutputOf(height, hash, tx, miner, n);
    FiledAs(tx, miner, n);
    AddOutputAccepts(u, o);
    if AddTxOutput(u, height, hash, tx, miner, n).Ok? {
      var v := AddTxOutput(u, height, hash, tx, miner, n).value;
      AddOutputInserts(u, o);
      InsertedDense(u, v.0, Slot(o.out.amount, v.1), Row(tx, miner, height, |outs.txs|, n), OutTx(hash, n));
      ExtendsMore(outs, u, indices, height, hash, tx, miner, n, v.0, v.1);
    }
  }

  /** The outcome `r` of adding the first `n` outputs: accepted exactly when all
      are storable, and then gap-free and an extension. */
  ghost predicate AddedDense(outs: Outputs, r: DbResult<(Outputs, seq<nat>)>, height: nat, hash: Hash,
                             tx: Transaction, n: nat)
    requires n <= |tx.vout|
  {
    && (r.Ok? <==> AllStorable(tx, n))
    && (r.Ok? ==> DenseOutputs(r.value.0) && Extends(outs, r.value.0, r.value.1, height, hash, tx, Gen in tx.vin, n))
  }

  lemma AllStorableMore(tx: Transaction, n: nat)
    requires n < |tx.vout|
    ensures AllStorable(tx, n + 1) <==>
      AllStorable(tx, n) && Storable(tx, n)
  {
  }

  lemma AddedDenseMore(outs: Outputs, r: DbResult<(Outputs, seq<nat>)>, v: DbResult<(Outputs, nat)>,
                       r': DbResult<(Outputs, seq<nat>)>,
                       height: nat, hash: Hash, tx: Transaction, n: nat)
    requires n < |tx.vout| && AddedDense(outs, r, height, hash, tx, n)
    requires r.Err? ==> r' == r
    requires r.Ok? ==> (v.Ok? <==> Storable(tx, n))
    requires r.Ok? && v.Err? ==> r'.Err?
    requires r.Ok? && v.Ok? ==>
      && r' == Ok((v.value.0, r.value.1 + [v.value.1]))
      && DenseOutputs(v.value.0)
      && Extends(outs, v.value.0, r.value.1 + [v.value.1], height, hash, tx, Gen in tx.vin, n + 1)
    ensures AddedDense(outs, r', height, hash, tx, n + 1)
  {
    AllStorableMore(tx, n);
  }

  lemma {:induction false} AddOutputsDense(outs: Outputs, height: nat, hash: Hash, tx: Transaction, n: nat)
    requires DenseOutputs(outs) && n <= |tx.vout|
    ensures AddedDense(outs, AddOutputs(outs, height, hash, tx, Gen in tx.vin, n), height, hash, tx, n)
  {
    hide AddOutput;
    if n > 0 {
      AddOutputsDense(outs, height, hash, tx, n - 1);
      var r := AddOutputs(outs, height, hash, tx, Gen in tx.vin, n - 1);
      var v: DbResult<(Outputs, nat)> := Err(DbError);
      if r.Ok? {
        v := AddTxOutput(r.value.0, height, hash, tx, Gen in tx.vin, n - 1);
        AddTxOutputExtends(outs, r.value.0, r.value.1, height, hash, tx, Gen in tx.vin, n - 1);
      }
      AddedDenseMore(outs, r, v, AddOutputs(outs, height, hash, tx, Gen in tx.vin, n), height, hash, tx, n - 1);
    }
  }
}
