/** Lists of transactions and whole blocks: the parts of adding and popping, and
    what they do to the number of transactions. */
module BlockChain {
  import opened SharedTypes
  import opened BlockTables
  import opened BlockOps
  import opened BlockRoundTrip

  function Reversed<T>(s: seq<T>): (r: seq<T>) {
    if s == [] then [] else [s[|s| - 1]] + Reversed(s[..|s| - 1])
  }

  lemma {:induction false} ReversedTwice<T>(s: seq<T>)
    ensures |Reversed(s)| == |s|
    ensures forall i :: 0 <= i < |s| ==> Reversed(s)[i] == s[|s| - 1 - i]
    ensures Reversed(Reversed(s)) == s
  {
    ReversedAt(s);
    ReversedAt(Reversed(s));
  }

  lemma {:induction false} ReversedAt<T>(s: seq<T>)
    ensures |Reversed(s)| == |s|
    ensures forall i :: 0 <= i < |s| ==> Reversed(s)[i] == s[|s| - 1 - i]
  {
    if s != [] {
      ReversedAt(s[..|s| - 1]);
    }
  }

  lemma {:induction false} ReversedSplit<T>(a: seq<T>, b: seq<T>)
    ensures Reversed(a + b) == Reversed(b) + Reversed(a)
  {
    if b == [] {
      assert a + b == a;
    } else {
      assert (a + b)[..|a + b| - 1] == a + b[..|b| - 1];
      ReversedSplit(a, b[..|b| - 1]);
    }
  }

  ghost predicate AllTxsSupported(txs: seq<Transaction>) {
    forall tx :: tx in txs ==> AllSupported(tx.vin)
  }

  ghost predicate AllSidesAgree(txs: seq<Transaction>) {
    forall tx :: tx in txs ==> SidesAgree(tx)
  }

  // ---- First and rest of a list --------------------------------------------------

  /** The miner transaction is the first of the list of a block. */
  lemma {:induction false} AddTxsCons(t: Tables, tx: Transaction, hash: Hash, txs: seq<Transaction>, hashes: seq<Hash>)
    requires |txs| == |hashes|
    ensures AddTxs(t, [tx] + txs, [hash] + hashes) ==
      match AddTx(t, tx, hash)
      case Ok(u) => AddTxs(u, txs, hashes)
      case Err(e) => Err(e)
  {
    hide AddTx;
    var n := |txs|;
    var all, hs := [tx] + txs, [hash] + hashes;
    if n == 0 {
      assert all[..0] == [] && hs[..0] == [];
    } else {
      AddTxsCons(t, tx, hash, txs[..n - 1], hashes[..n - 1]);
      assert all[..n] == [tx] + txs[..n - 1] && hs[..n] == [hash] + hashes[..n - 1];
      assert all[n] == txs[n - 1] && hs[n] == hashes[n - 1];
    }
  }

  lemma {:induction false} PopTxsCons(t: Tables, hash: Hash, hashes: seq<Hash>)
    ensures PopTxs(t, [hash] + hashes).Ok? <==>
      PopTxs(t, hashes).Ok? && RemoveTx(PopTxs(t, hashes).value.0, hash).Ok?
    ensures PopTxs(t, [hash] + hashes).Ok? ==>
      && Ok(PopTxs(t, [hash] + hashes).value.0) == RemoveTx(PopTxs(t, hashes).value.0, hash)
      && PopTxs(t, [hash] + hashes).value.1[..|hashes|] == PopTxs(t, hashes).value.1
    decreases |hashes|
  {
    hide RemoveTx;
    var n := |hashes|;
    var all := [hash] + hashes;
    if n == 0 {
      assert all[..0] == [];
      RemoveNeedsTx(t, hash);
    } else {
      assert all[..n] == [hash] + hashes[..n - 1] && all[n] == hashes[n - 1];
      if RemoveTx(t, hashes[n - 1]).Ok? {
        PopTxsCons(RemoveTx(t, hashes[n - 1]).value, hash, hashes[..n - 1]);
      }
    }
  }

  lemma RemoveNeedsTx(t: Tables, hash: Hash)
    ensures RemoveTx(t, hash).Ok? ==> GetTx(t, hash).Ok?
  {
  }

  // ---- The parts of a block ---------------------------------------------------

  /** The transaction under `hash` has the highest id present: ids grow with each
      addition, so that it is the one added last. */
  ghost predicate IsTop(t: Tables, hash: Hash) {
    && hash in t.txIndices && t.txIndices[hash].id in t.txs
    && forall i :: i in t.txs ==> i <= t.txIndices[hash].id
  }

  lemma LastIsTop(t: Tables, tx: Transaction, hash: Hash)
    requires AllSupported(tx.vin) && AddTx(t, tx, hash).Ok?
    ensures var u := AddTx(t, tx, hash).value;
      GetTx(u, hash) == Ok(tx) && IsTop(u, hash) && u.txIndices[hash].id == |u.txs| - 1
  {
    AddTxStores(t, tx, hash);
    var v := NewOutputs(t, tx, hash).value;
    RemoveStored(t, tx, hash, v.0, v.1);
  }

  lemma AddThenRemoveRow(t: Tables, blk: Block, info: BlockInfo)
    requires AddBlockRow(t, blk, info).Ok?
    ensures RemoveBlockRow(AddBlockRow(t, blk, info).value) == Ok(t)
  {
    PutThenRemove(t.blockHeights, blk.hash, |t.blocks|);
  }

  /** The parts of a successful addition. */
  lemma AddBlockParts(t: Tables, blk: Block, info: BlockInfo, txs: seq<Transaction>) returns (u: Tables, v: Tables)
    requires AddBlock(t, blk, info, txs).Ok?
    ensures |txs| == |blk.txHashes|
    ensures AddTx(t, blk.minerTx, blk.minerTxHash) == Ok(u)
    ensures AddTxs(u, txs, blk.txHashes) == Ok(v)
    ensures var w := AddBlock(t, blk, info, txs).value;
      RemoveBlockRow(w) == Ok(v) && w.blocks == v.blocks + [BlockRow(blk, info, blk.hash)]
  {
    u := AddTx(t, blk.minerTx, blk.minerTxHash).value;
    v := AddTxs(u, txs, blk.txHashes).value;
    AddThenRemoveRow(v, blk, info);
  }

  // ---- Counting transactions -------------------------------------------------------

  lemma AddTxCount(t: Tables, tx: Transaction, hash: Hash)
    requires AddTx(t, tx, hash).Ok?
    ensures |AddTx(t, tx, hash).value.txs| == |t.txs| + if AllSupported(tx.vin) then 1 else 0
  {
    if AllSupported(tx.vin) {
      AddTxStores(t, tx, hash);
    } else {
      var j := FirstUnsupported(tx.vin);
      UnsupportedRollback(t, tx, hash, j);
    }
  }

  lemma {:induction false} FirstUnsupported(vin: seq<TxIn>) returns (j: nat)
    requires !AllSupported(vin)
    ensures j < |vin| && vin[j].Unsupported? && AllSupported(vin[..j])
  {
    var n := |vin| - 1;
    assert vin == vin[..n] + [vin[n]];
    if AllSupported(vin[..n]) {
      j := n;
    } else {
      j := FirstUnsupported(vin[..n]);
      assert vin[..n][..j] == vin[..j];
    }
  }

  lemma RemoveTxCount(t: Tables, hash: Hash)
    requires RemoveTx(t, hash).Ok?
    ensures |RemoveTx(t, hash).value.txs| == |t.txs| - 1
  {
    var tx := GetTx(t, hash).value;
    RemoveSpentKeysIsDifference(t, tx.vin);
    var id := t.txIndices[hash].id;
    assert (t.txs - {id}).Keys == t.txs.Keys - {id};
  }

  lemma {:induction false} AddTxsCount(t: Tables, txs: seq<Transaction>, hashes: seq<Hash>)
    requires |txs| == |hashes| && AddTxs(t, txs, hashes).Ok?
    ensures |AddTxs(t, txs, hashes).value.txs| <= |t.txs| + |txs|
    ensures |AddTxs(t, txs, hashes).value.txs| == |t.txs| + |txs| ==> AllTxsSupported(txs)
  {
    hide AddTx, AllSupported;
    if txs != [] {
      var n := |txs| - 1;
      AddTxsCount(t, txs[..n], hashes[..n]);
      AddTxCount(AddTxs(t, txs[..n], hashes[..n]).value, txs[n], hashes[n]);
      assert txs == txs[..n] + [txs[n]];
    }
  }

  lemma {:induction false} PopTxsCount(t: Tables, hashes: seq<Hash>)
    requires PopTxs(t, hashes).Ok?
    ensures |PopTxs(t, hashes).value.0.txs| == |t.txs| - |hashes|
    decreases |hashes|
  {
    if hashes != [] {
      var n := |hashes| - 1;
      RemoveTxCount(t, hashes[n]);
      PopTxsCount(RemoveTx(t, hashes[n]).value, hashes[..n]);
    }
  }
}
