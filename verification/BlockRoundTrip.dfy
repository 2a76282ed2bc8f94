/** Adding and then removing: when it restores the tables. */
module BlockRoundTrip {
  import opened SharedTypes
  import opened Lists
  import opened BlockTables
  import opened BlockOps

  // ---- Inputs ------------------------------------------------------------------

  function Images(vin: seq<TxIn>): (s: seq<KeyImage>) {
    if vin == [] then []
    else Images(vin[..|vin| - 1]) + (if vin[|vin| - 1].ToKey? then [vin[|vin| - 1].image] else [])
  }

  ghost predicate AllSupported(vin: seq<TxIn>) {
    forall i :: i in vin ==> !i.Unsupported?
  }

  lemma ImagesSnoc(vin: seq<TxIn>, x: TxIn)
    ensures x.ToKey? ==>
      && Elements(Images(vin + [x])) == Elements(Images(vin)) + {x.image}
      && (Distinct(Images(vin + [x])) <==> Distinct(Images(vin)) && x.image !in Elements(Images(vin)))
    ensures !x.ToKey? ==> Images(vin + [x]) == Images(vin)
  {
    assert (vin + [x])[..|vin|] == vin;
    if x.ToKey? {
      assert Images(vin + [x]) == Images(vin) + [x.image];
      ListMore(Images(vin), x.image);
    }
  }

  /** The input loop on supported inputs: it goes through exactly when the key
      images are distinct and unspent, and then adds just these. */
  lemma {:induction false} AddInputsSupported(t: Tables, vin: seq<TxIn>)
    requires AllSupported(vin)
    ensures Distinct(Images(vin)) && Elements(Images(vin)) !! t.spentKeys ==>
      AddInputs(t, vin) == Added(t.(spentKeys := t.spentKeys + Elements(Images(vin))), Gen in vin)
    ensures !(Distinct(Images(vin)) && Elements(Images(vin)) !! t.spentKeys) ==>
      AddInputs(t, vin).Failed? && AddInputs(t, vin).error == KeyImageExists
  {
    if vin == [] {
      assert t.spentKeys + Elements(Images(vin)) == t.spentKeys;
    } else {
      hide Images, Distinct, Elements;
      var n := |vin| - 1;
      var init, x := vin[..n], vin[n];
      assert vin == init + [x];
      AddInputsSupported(t, init);
      ImagesSnoc(init, x);
      if x.ToKey? {
        assert t.spentKeys + Elements(Images(vin)) == t.spentKeys + Elements(Images(init)) + {x.image};
      } else {
        assert Images(vin) == Images(init);
      }
    }
  }

  lemma {:induction false} RemoveSpentKeysIsDifference(t: Tables, vin: seq<TxIn>)
    ensures RemoveSpentKeys(t, vin) == t.(spentKeys := t.spentKeys - Elements(Images(vin)))
  {
    if vin == [] {
      assert t.spentKeys - Elements(Images(vin)) == t.spentKeys;
    } else {
      var n := |vin| - 1;
      RemoveSpentKeysIsDifference(t, vin[..n]);
      if vin[n].ToKey? {
        assert Elements(Images(vin)) == Elements(Images(vin[..n])) + {vin[n].image};
        assert t.spentKeys - Elements(Images(vin)) == t.spentKeys - Elements(Images(vin[..n])) - {vin[n].image};
      } else {
        assert Elements(Images(vin)) == Elements(Images(vin[..n]));
      }
    }
  }

  /** A transaction with an unsupported input, at position `j` the first such:
      unless a key image before it was spent already, the call leaves every
      table but the spent keys alone, and leaves these alone exactly when no key
      image listed after it was spent before the call. */
  lemma UnsupportedRollback(t: Tables, tx: Transaction, hash: Hash, j: nat)
    requires j < |tx.vin| && tx.vin[j].Unsupported? && AllSupported(tx.vin[..j])
    ensures AddTx(t, tx, hash).Ok? <==> Distinct(Images(tx.vin[..j])) && Elements(Images(tx.vin[..j])) !! t.spentKeys
    ensures AddTx(t, tx, hash).Ok? ==>
      && AddTx(t, tx, hash).value == t.(spentKeys := t.spentKeys - Elements(Images(tx.vin[j..])))
      && (AddTx(t, tx, hash).value == t <==> Elements(Images(tx.vin[j..])) !! t.spentKeys)
  {
    var before, after := tx.vin[..j], tx.vin[j..];
    AddInputsSupported(t, before);
    AddInputsUpTo(t, tx.vin, j);
    ImagesSplit(before, after);
    assert before + after == tx.vin;
    if AddTx(t, tx, hash).Ok? {
      var u := t.(spentKeys := t.spentKeys + Elements(Images(before)));
      RemoveSpentKeysIsDifference(u, tx.vin);
      assert Elements(Images(tx.vin)) == Elements(Images(before)) + Elements(Images(after));
      assert u.spentKeys - Elements(Images(tx.vin)) == t.spentKeys - Elements(Images(after));
    }
  }

  /** The loop stops at the first unsupported input, or at an earlier failure. */
  lemma {:induction false} AddInputsUpTo(t: Tables, vin: seq<TxIn>, j: nat)
    requires j < |vin| && vin[j].Unsupported?
    ensures match AddInputs(t, vin[..j])
      case Added(u, _) => AddInputs(t, vin) == Aborted(u)
      case stopped => AddInputs(t, vin) == stopped
  {
    var n := |vin| - 1;
    if j < n {
      AddInputsUpTo(t, vin[..n], j);
      assert vin[..n][..j] == vin[..j];
    }
  }

  lemma {:induction false} ImagesSplit(a: seq<TxIn>, b: seq<TxIn>)
    ensures Images(a + b) == Images(a) + Images(b)
  {
    if b == [] {
      assert a + b == a;
    } else {
      var n := |b| - 1;
      assert (a + b)[..|a + b| - 1] == a + b[..n];
      ImagesSplit(a, b[..n]);
    }
  }

  // ---- Outputs -----------------------------------------------------------------------

  ghost function Count(outs: Outputs, amount: nat): (n: nat) {
    |SlotsOf(outs.amounts, amount)|
  }

  /** `v` is `u` with one output more, in a slot and under an id that were free. */
  ghost predicate Inserted(u: Outputs, v: Outputs, slot: Slot, key: OutKey, ot: OutTx) {
    && |u.txs| !in u.txs && slot !in u.amounts
    && key.outputId == |u.txs|
    && v == Outputs(u.txs[|u.txs| := ot], u.amounts[slot := key])
  }

  /** The row that a new output gets under the next free id. */
  ghost function KeyOf(outs: Outputs, o: NewOutput): (key: OutKey) {
    OutKey(|outs.txs|, o.out.key, o.unlockTime, o.height, if o.out.amount == 0 then o.commitment else None)
  }

  lemma AddOutputInserts(outs: Outputs, o: NewOutput)
    requires AddOutput(outs, o).Ok?
    ensures var v := AddOutput(outs, o).value;
      && v.1 == Count(outs, o.out.amount)
      && Inserted(outs, v.0, Slot(o.out.amount, v.1), KeyOf(outs, o), OutTx(o.hash, o.local))
  {
    var slot := Slot(o.out.amount, Count(outs, o.out.amount));
    assert slot !in SlotsOf(outs.amounts, o.out.amount);
  }

  lemma InsertedCount(u: Outputs, v: Outputs, slot: Slot, key: OutKey, ot: OutTx, amount: nat)
    requires Inserted(u, v, slot, key, ot)
    ensures Count(v, amount) == Count(u, amount) + if slot.amount == amount then 1 else 0
  {
    if slot.amount == amount {
      assert SlotsOf(v.amounts, amount) == SlotsOf(u.amounts, amount) + {slot};
    } else {
      assert SlotsOf(v.amounts, amount) == SlotsOf(u.amounts, amount);
    }
  }

  lemma AddThenRemoveOutput(outs: Outputs, o: NewOutput)
    requires AddOutput(outs, o).Ok?
    ensures var r := AddOutput(outs, o).value; RemoveOutput(r.0, o.out.amount, r.1) == Ok(outs)
  {
    var r := AddOutput(outs, o).value;
    AddOutputInserts(outs, o);
    PutThenRemove(outs.txs, |outs.txs|, OutTx(o.hash, o.local));
    PutThenRemove(outs.amounts, Slot(o.out.amount, r.1), KeyOf(outs, o));
  }

  /** Where output `j` is filed: a version-2 transaction with a generating input has
      all its outputs under amount 0. */
  function FiledAmount(tx: Transaction, miner: bool, j: nat): (a: nat)
    requires j < |tx.vout|
  {
    if miner && tx.version == 2 then 0 else tx.vout[j].amount
  }

  /** Where it is looked for: a transaction of version 2 or more whose only input is
      generating has all its outputs under amount 0. */
  function SoughtAmount(tx: Transaction, j: nat): (a: nat)
    requires j < |tx.vout|
  {
    if tx.version >= 2 && tx.vin == [Gen] then 0 else tx.vout[j].amount
  }

  /** The commitment in the row of output `j`: that of its amount with identity mask for
      a version-2 transaction with a generating input, the one in the signatures for
      other outputs of amount 0, and none for the rest. */
  function RowCommitment(tx: Transaction, miner: bool, j: nat): (c: Option<Commitment>)
    requires j < |tx.vout|
  {
    if miner && tx.version == 2 then Some(ZeroCommit(tx.vout[j].amount))
    else if tx.vout[j].amount == 0 && tx.version > 1 then Some(tx.vout[j].mask)
    else None
  }

  /** What the operations file and look for. */
  lemma FiledAs(tx: Transaction, miner: bool, j: nat)
    requires j < |tx.vout|
    ensures StoredOut(tx, miner, j).amount == FiledAmount(tx, miner, j) && StoredOut(tx, miner, j).key == tx.vout[j].key
    ensures (if FiledAmount(tx, miner, j) == 0 then StoredCommitment(tx, miner, j) else None) ==
      RowCommitment(tx, miner, j)
  {
  }

  lemma SoughtAs(tx: Transaction, j: nat)
    requires j < |tx.vout|
    ensures RemovalAmount(tx, j) == SoughtAmount(tx, j)
  {
    PseudoIs(tx);
  }

  lemma PseudoIs(tx: Transaction)
    ensures IsPseudoRct(tx) <==> tx.version >= 2 && tx.vin == [Gen]
  {
  }

  /** Both sides file every output under the same amount. */
  predicate SidesAgree(tx: Transaction) {
    || (tx.version == 2 && Gen in tx.vin <==> tx.version >= 2 && tx.vin == [Gen])
    || forall o :: o in tx.vout ==> o.amount == 0
  }

  lemma SidesAgreeAt(tx: Transaction, i: nat)
    requires SidesAgree(tx) && i < |tx.vout|
    ensures StoredOut(tx, Gen in tx.vin, i).amount == RemovalAmount(tx, i)
  {
    PseudoIs(tx);
    assert tx.vout[i] in tx.vout;
  }

  lemma {:induction false} UndoOutputs(outs: Outputs, height: nat, hash: Hash, tx: Transaction, miner: bool, n: nat,
                                       indices: seq<nat>)
    requires n <= |tx.vout| == |indices|
    requires forall i: nat :: i < n ==> StoredOut(tx, miner, i).amount == RemovalAmount(tx, i)
    requires AddOutputs(outs, height, hash, tx, miner, n).Ok?
    requires AddOutputs(outs, height, hash, tx, miner, n).value.1 == indices[..n]
    ensures RemoveOutputs(AddOutputs(outs, height, hash, tx, miner, n).value.0, tx, indices, n) == Ok(outs)
  {
    if n > 0 {
      var u := AddOutputs(outs, height, hash, tx, miner, n - 1).value;
      var v := AddTxOutput(u.0, height, hash, tx, miner, n - 1).value;
      assert indices[..n] == u.1 + [v.1];
      assert indices[..n - 1] == u.1 && indices[n - 1] == v.1;
      UndoOutputs(outs, height, hash, tx, miner, n - 1, indices);
      AddThenRemoveOutput(u.0, OutputOf(height, hash, tx, miner, n - 1));
      assert RemoveOutput(v.0, RemovalAmount(tx, n - 1), indices[n - 1]) == Ok(u.0);
    }
  }

  // ---- Counting the outputs of one amount -----------------------------------------

  /** How many of the first `n` outputs are filed under `amount`. */
  ghost function FiledUnder(tx: Transaction, miner: bool, amount: nat, n: nat): (c: nat)
    requires n <= |tx.vout|
  {
    if n == 0 then 0
    else FiledUnder(tx, miner, amount, n - 1) + (if StoredOut(tx, miner, n - 1).amount == amount then 1 else 0)
  }

  /** How many of the first `n` outputs the removal looks for under `amount`. */
  ghost function SoughtUnder(tx: Transaction, amount: nat, n: nat): (c: nat)
    requires n <= |tx.vout|
  {
    if n == 0 then 0 else SoughtUnder(tx, amount, n - 1) + (if RemovalAmount(tx, n - 1) == amount then 1 else 0)
  }

  lemma {:induction false} CountAfterAdds(outs: Outputs, height: nat, hash: Hash, tx: Transaction, miner: bool, n: nat,
                                          amount: nat)
    requires n <= |tx.vout| && AddOutputs(outs, height, hash, tx, miner, n).Ok?
    ensures Count(AddOutputs(outs, height, hash, tx, miner, n).value.0, amount) ==
            Count(outs, amount) + FiledUnder(tx, miner, amount, n)
  {
    hide AddOutput;
    if n > 0 {
      CountAfterAdds(outs, height, hash, tx, miner, n - 1, amount);
      var u, o := AddOutputs(outs, height, hash, tx, miner, n - 1).value.0, OutputOf(height, hash, tx, miner, n - 1);
      var v := AddOutput(u, o).value;
      AddOutputInserts(u, o);
      InsertedCount(u, v.0, Slot(o.out.amount, v.1), KeyOf(u, o), OutTx(o.hash, o.local), amount);
    }
  }

  lemma {:induction false} CountAfterRemovals(outs: Outputs, tx: Transaction, indices: seq<nat>, n: nat, amount: nat)
    requires n <= |tx.vout| == |indices| && RemoveOutputs(outs, tx, indices, n).Ok?
    ensures Count(RemoveOutputs(outs, tx, indices, n).value, amount) == Count(outs, amount) - SoughtUnder(tx, amount, n)
    decreases n
  {
    if n > 0 {
      var slot := Slot(RemovalAmount(tx, n - 1), indices[n - 1]);
      var u := RemoveOutput(outs, slot.amount, slot.index).value;
      if slot.amount == amount {
        assert SlotsOf(outs.amounts, amount) == SlotsOf(u.amounts, amount) + {slot};
      } else {
        assert SlotsOf(outs.amounts, amount) == SlotsOf(u.amounts, amount);
      }
      CountAfterRemovals(u, tx, indices, n - 1, amount);
    }
  }

  /** When the sides disagree, some amount gains an output for good. */
  lemma DisagreementShows(tx: Transaction) returns (amount: nat)
    requires !SidesAgree(tx)
    ensures FiledUnder(tx, Gen in tx.vin, amount, |tx.vout|) != SoughtUnder(tx, amount, |tx.vout|)
  {
    PseudoIs(tx);
    var miner := Gen in tx.vin;
    var i: nat :| i < |tx.vout| && tx.vout[i].amount != 0;
    amount := if StoredAsRct(tx, miner) then 0 else tx.vout[i].amount;
    if StoredAsRct(tx, miner) {
      FiledAll(tx, |tx.vout|);
      SoughtSome(tx, i, |tx.vout|);
    } else {
      FiledSome(tx, i, |tx.vout|);
      SoughtNone(tx, amount, |tx.vout|);
    }
  }

  lemma {:induction false} FiledAll(tx: Transaction, n: nat)
    requires StoredAsRct(tx, Gen in tx.vin) && n <= |tx.vout|
    ensures FiledUnder(tx, Gen in tx.vin, 0, n) == n
  {
    if n > 0 { FiledAll(tx, n - 1); }
  }

  lemma {:induction false} FiledSome(tx: Transaction, i: nat, n: nat)
    requires !StoredAsRct(tx, Gen in tx.vin) && i < n <= |tx.vout|
    ensures FiledUnder(tx, Gen in tx.vin, tx.vout[i].amount, n) > 0
  {
    if i < n - 1 { FiledSome(tx, i, n - 1); }
  }

  lemma {:induction false} SoughtSome(tx: Transaction, i: nat, n: nat)
    requires !IsPseudoRct(tx) && n <= |tx.vout| && i < |tx.vout| && tx.vout[i].amount != 0
    ensures SoughtUnder(tx, 0, n) <= n && (i < n ==> SoughtUnder(tx, 0, n) < n)
  {
    if n > 0 { SoughtSome(tx, i, n - 1); }
  }

  lemma {:induction false} SoughtNone(tx: Transaction, amount: nat, n: nat)
    requires IsPseudoRct(tx) && amount != 0 && n <= |tx.vout|
    ensures SoughtUnder(tx, amount, n) == 0
  {
    if n > 0 { SoughtNone(tx, amount, n - 1); }
  }

  // ---- Transactions -------------------------------------------------------------------

  /** The tables with one more transaction, whose outputs made them `outs`. */
  ghost function Stored(t: Tables, tx: Transaction, hash: Hash, outs: Outputs, indices: seq<nat>): (u: Tables) {
    t.(
      spentKeys := t.spentKeys + Elements(Images(tx.vin)),
      txIndices := t.txIndices[hash := TxIndex(|t.txs|, tx.unlockTime, |t.blocks|)],
      txs := t.txs[|t.txs| := tx],
      outs := outs,
      txOutputs := t.txOutputs[|t.txs| := indices])
  }

  /** None of the rows that storing `tx` writes was there before. */
  ghost predicate Fresh(t: Tables, tx: Transaction, hash: Hash) {
    && Distinct(Images(tx.vin)) && Elements(Images(tx.vin)) !! t.spentKeys
    && hash !in t.txIndices
    && Above(t.txs.Keys, |t.txs|) && Above(t.txOutputs.Keys, |t.txs|)
  }

  ghost function NewOutputs(t: Tables, tx: Transaction, hash: Hash): (r: DbResult<(Outputs, seq<nat>)>)
    ensures r.Ok? ==> |r.value.1| == |tx.vout|
  {
    AddOutputs(t.outs, |t.blocks|, hash, tx, Gen in tx.vin, |tx.vout|)
  }

  /** What `AddTx` does with supported inputs, in one piece. */
  lemma AddTxStores(t: Tables, tx: Transaction, hash: Hash)
    requires AllSupported(tx.vin)
    ensures AddTx(t, tx, hash).Ok? <==> Fresh(t, tx, hash) && NewOutputs(t, tx, hash).Ok?
    ensures AddTx(t, tx, hash).Ok? ==>
      AddTx(t, tx, hash).value == Stored(t, tx, hash, NewOutputs(t, tx, hash).value.0, NewOutputs(t, tx, hash).value.1)
  {
    AddInputsSupported(t, tx.vin);
  }

  lemma PutThenRemove<K, V>(m: map<K, V>, k: K, v: V)
    requires k !in m
    ensures m[k := v] - {k} == m
  {
  }

  /** Removing the transaction stored last touches only its own rows. */
  lemma RemoveStored(t: Tables, tx: Transaction, hash: Hash, outs: Outputs, indices: seq<nat>)
    requires Fresh(t, tx, hash) && |indices| == |tx.vout|
    ensures GetTx(Stored(t, tx, hash, outs, indices), hash) == Ok(tx)
    ensures RemoveTx(Stored(t, tx, hash, outs, indices), hash) ==
      match RemoveOutputs(outs, tx, indices, |tx.vout|)
      case Ok(outs') => Ok(t.(outs := outs'))
      case Err(e) => Err(e)
  {
    var u := Stored(t, tx, hash, outs, indices);
    RemoveSpentKeysIsDifference(u, tx.vin);
    assert t.spentKeys + Elements(Images(tx.vin)) - Elements(Images(tx.vin)) == t.spentKeys;
    PutThenRemove(t.txIndices, hash, TxIndex(|t.txs|, tx.unlockTime, |t.blocks|));
    PutThenRemove(t.txs, |t.txs|, tx);
    PutThenRemove(t.txOutputs, |t.txs|, indices);
  }

  /** Adding a transaction and removing it restores every table exactly when the
      adding side and the removing side agree on the amounts of its outputs. */
  lemma AddThenRemoveTx(t: Tables, tx: Transaction, hash: Hash)
    requires AllSupported(tx.vin) && AddTx(t, tx, hash).Ok?
    ensures RemoveTx(AddTx(t, tx, hash).value, hash) == Ok(t) <==> SidesAgree(tx)
  {
    AddTxStores(t, tx, hash);
    var miner, n := Gen in tx.vin, |tx.vout|;
    var v := NewOutputs(t, tx, hash).value;
    RemoveStored(t, tx, hash, v.0, v.1);
    if SidesAgree(tx) {
      forall i: nat | i < n ensures StoredOut(tx, miner, i).amount == RemovalAmount(tx, i) {
        SidesAgreeAt(tx, i);
      }
      assert v.1[..n] == v.1;
      UndoOutputs(t.outs, |t.blocks|, hash, tx, miner, n, v.1);
    } else if RemoveOutputs(v.0, tx, v.1, n).Ok? {
      var amount := DisagreementShows(tx);
      CountAfterAdds(t.outs, |t.blocks|, hash, tx, miner, n, amount);
      CountAfterRemovals(v.0, tx, v.1, n, amount);
    }
  }
}
