/** When a block is accepted by a store without gaps, and what it does to the
    spent keys and the transaction index. */
module BlockAcceptance {
  import opened SharedTypes
  import opened Lists
  import opened BlockTables
  import opened BlockOps
  import opened BlockRoundTrip
  import opened BlockChain
  import opened BlockInvariant

  /** Transaction ids, output ids and the indices within each amount have no gaps. */
  ghost predicate Dense(t: Tables) {
    && DenseOutputs(t.outs)
    && (forall i: nat :: i in t.txs <==> i < |t.txs|)
    && (forall i: nat :: i in t.txOutputs <==> i < |t.txs|)
  }

  /** Exactly when a transaction is accepted. */
  ghost predicate Acceptable(t: Tables, tx: Transaction, hash: Hash) {
    && Distinct(Images(tx.vin)) && Elements(Images(tx.vin)) !! t.spentKeys
    && hash !in t.txIndices
    && AllStorable(tx, |tx.vout|)
  }

  /** The parts of the store that acceptance looks at, after the transaction. */
  ghost predicate Follows(t: Tables, u: Tables, tx: Transaction, hash: Hash) {
    && Dense(u)
    && u.spentKeys == t.spentKeys + Elements(Images(tx.vin))
    && u.txIndices.Keys == t.txIndices.Keys + {hash}
    && u.blocks == t.blocks && u.blockHeights == t.blockHeights
  }

  lemma AddTxAccepts(t: Tables, tx: Transaction, hash: Hash)
    requires Dense(t) && AllSupported(tx.vin)
    ensures AddTx(t, tx, hash).Ok? <==> Acceptable(t, tx, hash)
    ensures AddTx(t, tx, hash).Ok? ==> Follows(t, AddTx(t, tx, hash).value, tx, hash)
  {
    AddTxStores(t, tx, hash);
    AddOutputsDense(t.outs, |t.blocks|, hash, tx, |tx.vout|);
    assert Above(t.txs.Keys, |t.txs|) && Above(t.txOutputs.Keys, |t.txs|);
    if AddTx(t, tx, hash).Ok? {
      var v := NewOutputs(t, tx, hash).value;
      StoredFollows(t, tx, hash, v.0, v.1);
    }
  }

  lemma StoredFollows(t: Tables, tx: Transaction, hash: Hash, outs: Outputs, indices: seq<nat>)
    requires Dense(t) && DenseOutputs(outs)
    ensures Follows(t, Stored(t, tx, hash, outs, indices), tx, hash)
  {
    hide DenseOutputs, Images;
    var u := Stored(t, tx, hash, outs, indices);
    assert |u.txs| == |t.txs| + 1;
  }

  // ---- Lists of transactions -------------------------------------------------------

  function TxsImages(txs: seq<Transaction>): (s: seq<KeyImage>) {
    if txs == [] then [] else TxsImages(txs[..|txs| - 1]) + Images(txs[|txs| - 1].vin)
  }

  ghost predicate AllTxsStorable(txs: seq<Transaction>) {
    forall tx :: tx in txs ==> AllStorable(tx, |tx.vout|)
  }

  ghost predicate AcceptableTxs(t: Tables, txs: seq<Transaction>, hashes: seq<Hash>) {
    && Distinct(TxsImages(txs)) && Elements(TxsImages(txs)) !! t.spentKeys
    && Distinct(hashes) && Elements(hashes) !! t.txIndices.Keys
    && AllTxsStorable(txs)
  }

  ghost predicate FollowsTxs(t: Tables, u: Tables, txs: seq<Transaction>, hashes: seq<Hash>) {
    && Dense(u)
    && u.spentKeys == t.spentKeys + Elements(TxsImages(txs))
    && u.txIndices.Keys == t.txIndices.Keys + Elements(hashes)
    && u.blocks == t.blocks && u.blockHeights == t.blockHeights
  }

  /** Acceptance of a list is acceptance of its front and then of its last. */
  lemma AcceptableSplit(t: Tables, u: Tables, txs: seq<Transaction>, hashes: seq<Hash>, tx: Transaction, hash: Hash)
    requires |txs| == |hashes| && FollowsTxs(t, u, txs, hashes)
    ensures AcceptableTxs(t, txs + [tx], hashes + [hash]) <==> AcceptableTxs(t, txs, hashes) && Acceptable(u, tx, hash)
  {
    hide Dense, AllStorable;
    assert (txs + [tx])[..|txs|] == txs;
    assert TxsImages(txs + [tx]) == TxsImages(txs) + Images(tx.vin);
    DistinctSplit(TxsImages(txs), Images(tx.vin));
    ListMore(hashes, hash);
    assert AllTxsStorable(txs + [tx]) <==> AllTxsStorable(txs) && AllStorable(tx, |tx.vout|);
  }

  lemma RefusedFront(t: Tables, txs: seq<Transaction>, hashes: seq<Hash>, tx: Transaction, hash: Hash)
    requires |txs| == |hashes| && !AcceptableTxs(t, txs, hashes)
    ensures !AcceptableTxs(t, txs + [tx], hashes + [hash])
  {
    assert (txs + [tx])[..|txs|] == txs;
    assert TxsImages(txs + [tx]) == TxsImages(txs) + Images(tx.vin);
    DistinctSplit(TxsImages(txs), Images(tx.vin));
    ListMore(hashes, hash);
    assert AllTxsStorable(txs + [tx]) ==> AllTxsStorable(txs);
  }

  lemma FollowsMore(t: Tables, u: Tables, w: Tables, txs: seq<Transaction>, hashes: seq<Hash>, tx: Transaction,
                    hash: Hash)
    requires |txs| == |hashes| && FollowsTxs(t, u, txs, hashes) && Follows(u, w, tx, hash)
    ensures FollowsTxs(t, w, txs + [tx], hashes + [hash])
  {
    hide Dense;
    assert (txs + [tx])[..|txs|] == txs;
    assert TxsImages(txs + [tx]) == TxsImages(txs) + Images(tx.vin);
    DistinctSplit(TxsImages(txs), Images(tx.vin));
    ListMore(hashes, hash);
  }

  lemma FollowsIsDense(t: Tables, u: Tables, txs: seq<Transaction>, hashes: seq<Hash>)
    requires FollowsTxs(t, u, txs, hashes)
    ensures Dense(u)
  {
  }

  lemma NoTxsAccepted(t: Tables)
    requires Dense(t)
    ensures AcceptableTxs(t, [], []) && FollowsTxs(t, t, [], [])
  {
    hide Dense;
    assert t.spentKeys + Elements(TxsImages([])) == t.spentKeys;
  }

  /** A list of transactions with supported inputs is accepted exactly when its
      key images and hashes are new and distinct and its outputs storable. */
  lemma {:induction false} AddTxsAccepts(t: Tables, txs: seq<Transaction>, hashes: seq<Hash>)
    requires |txs| == |hashes| && Dense(t) && AllTxsSupported(txs)
    ensures AddTxs(t, txs, hashes).Ok? <==> AcceptableTxs(t, txs, hashes)
    ensures AddTxs(t, txs, hashes).Ok? ==> FollowsTxs(t, AddTxs(t, txs, hashes).value, txs, hashes)
  {
    hide AddTx, Dense, Acceptable, AcceptableTxs, Follows, FollowsTxs;
    if txs == [] {
      NoTxsAccepted(t);
    } else {
      var n := |txs| - 1;
      var front, fronts := txs[..n], hashes[..n];
      assert txs == front + [txs[n]] && hashes == fronts + [hashes[n]];
      AddTxsAccepts(t, front, fronts);
      var r := AddTxs(t, front, fronts);
      if r.Ok? {
        assert Dense(r.value) by { FollowsIsDense(t, r.value, front, fronts); }
        AcceptableSplit(t, r.value, front, fronts, txs[n], hashes[n]);
        AddTxAccepts(r.value, txs[n], hashes[n]);
        var w := AddTx(r.value, txs[n], hashes[n]);
        if w.Ok? {
          FollowsMore(t, r.value, w.value, front, fronts, txs[n], hashes[n]);
        }
      } else {
        RefusedFront(t, front, fronts, txs[n], hashes[n]);
      }
    }
  }

  // ---- Blocks ---------------------------------------------------------------------------

  ghost predicate FitsOnTop(t: Tables, blk: Block) {
    && blk.hash !in t.blockHeights
    && (|t.blocks| > 0 ==> blk.prevId in t.blockHeights && t.blockHeights[blk.prevId] == |t.blocks| - 1)
  }

  /** A block whose inputs are all of a supported kind is accepted by a store
      without gaps exactly when the lists of hashes and transactions match, its
      key images and transaction hashes are new and distinct, its outputs are
      storable and it is a new child of the top block. The store it leaves has
      no gaps, and gains just those key images and hashes. */
  lemma AddBlockAccepts(t: Tables, blk: Block, info: BlockInfo, txs: seq<Transaction>)
    requires Dense(t) && AllTxsSupported([blk.minerTx] + txs)
    ensures AddBlock(t, blk, info, txs).Ok? <==>
      && |txs| == |blk.txHashes|
      && AcceptableTxs(t, [blk.minerTx] + txs, [blk.minerTxHash] + blk.txHashes)
      && FitsOnTop(t, blk)
    ensures AddBlock(t, blk, info, txs).Ok? ==>
      var u := AddBlock(t, blk, info, txs).value;
      && Dense(u)
      && u.spentKeys == t.spentKeys + Elements(TxsImages([blk.minerTx] + txs))
      && u.txIndices.Keys == t.txIndices.Keys + Elements([blk.minerTxHash] + blk.txHashes)
      && u.blocks == t.blocks + [BlockRow(blk, info, blk.hash)]
      && u.blockHeights == t.blockHeights[blk.hash := |t.blocks|]
  {
    hide AddTx, AddTxs;
    if |txs| == |blk.txHashes| {
      AddTxsCons(t, blk.minerTx, blk.minerTxHash, txs, blk.txHashes);
      AddTxsAccepts(t, [blk.minerTx] + txs, [blk.minerTxHash] + blk.txHashes);
    }
  }

  // ---- Refusals -----------------------------------------------------------------------------

  lemma {:induction false} OutputsError(outs: Outputs, height: nat, hash: Hash, tx: Transaction, miner: bool, n: nat)
    requires n <= |tx.vout|
    ensures AddOutputs(outs, height, hash, tx, miner, n).Err? ==>
      AddOutputs(outs, height, hash, tx, miner, n).error == DbError
  {
    if n > 0 {
      OutputsError(outs, height, hash, tx, miner, n - 1);
    }
  }

  /** The error for a transaction that comes after others: a key image that is spent, or
      listed twice, goes before a known hash, and that before an unfit output. */
  ghost function Refusal(t: Tables, txs: seq<Transaction>, hashes: seq<Hash>, tx: Transaction, hash: Hash): (e: Error) {
    if !Distinct(Images(tx.vin)) || !(Elements(Images(tx.vin)) !! t.spentKeys + Elements(TxsImages(txs))) then
      KeyImageExists
    else if hash in t.txIndices || hash in hashes then TxExists
    else DbError
  }

  ghost predicate FirstRefused(t: Tables, txs: seq<Transaction>, hashes: seq<Hash>, m: nat)
    requires m < |txs| == |hashes|
  {
    AcceptableTxs(t, txs[..m], hashes[..m]) && !AcceptableTxs(t, txs[..m + 1], hashes[..m + 1])
  }

  lemma SomeRefused(t: Tables, txs: seq<Transaction>, hashes: seq<Hash>) returns (m: nat)
    requires |txs| == |hashes| && !AcceptableTxs(t, txs, hashes)
    ensures m < |txs| && FirstRefused(t, txs, hashes, m)
  {
    NothingRefused(t);
    hide AcceptableTxs;
    m := |txs|;
    assert txs[..m] == txs && hashes[..m] == hashes && txs[..0] == [] && hashes[..0] == [];
    while !AcceptableTxs(t, txs[..m], hashes[..m])
      invariant m <= |txs| && (m < |txs| ==> !AcceptableTxs(t, txs[..m + 1], hashes[..m + 1]))
      invariant m == |txs| ==> !AcceptableTxs(t, txs[..m], hashes[..m])
      decreases m
    {
      m := m - 1;
    }
  }

  lemma NothingRefused(t: Tables)
    ensures AcceptableTxs(t, [], [])
  {
  }

  lemma AddTxError(t: Tables, tx: Transaction, hash: Hash)
    requires Dense(t) && AllSupported(tx.vin) && AddTx(t, tx, hash).Err?
    ensures AddTx(t, tx, hash).error == Refusal(t, [], [], tx, hash)
  {
    hide DenseOutputs, Images, AddOutputs;
    AddInputsSupported(t, tx.vin);
    assert t.spentKeys + Elements(TxsImages([])) == t.spentKeys;
    OutputsError(t.outs, |t.blocks|, hash, tx, Gen in tx.vin, |tx.vout|);
  }

  lemma {:induction false} AddTxsError(t: Tables, txs: seq<Transaction>, hashes: seq<Hash>, m: nat)
    requires |txs| == |hashes| && m < |txs| && Dense(t) && AllTxsSupported(txs)
    requires FirstRefused(t, txs, hashes, m)
    ensures AddTxs(t, txs, hashes) == Err(Refusal(t, txs[..m], hashes[..m], txs[m], hashes[m]))
  {
    hide AddTx, Dense, AcceptableTxs, Refusal;
    var n := |txs| - 1;
    if m == n {
      AddTxsAccepts(t, txs[..m], hashes[..m]);
      AddTxsAccepts(t, txs, hashes);
      assert txs[..m + 1] == txs && hashes[..m + 1] == hashes;
      var u := AddTxs(t, txs[..m], hashes[..m]).value;
      FollowsIsDense(t, u, txs[..m], hashes[..m]);
      assert txs[m] in txs;
      AddTxError(u, txs[m], hashes[m]);
      SameRefusal(t, u, txs[..m], hashes[..m], txs[m], hashes[m]);
    } else {
      assert txs[..n][..m] == txs[..m] && hashes[..n][..m] == hashes[..m];
      assert txs[..n][..m + 1] == txs[..m + 1] && hashes[..n][..m + 1] == hashes[..m + 1];
      AddTxsError(t, txs[..n], hashes[..n], m);
    }
  }

  lemma SameRefusal(t: Tables, u: Tables, txs: seq<Transaction>, hashes: seq<Hash>, tx: Transaction, hash: Hash)
    requires FollowsTxs(t, u, txs, hashes)
    ensures Refusal(u, [], [], tx, hash) == Refusal(t, txs, hashes, tx, hash)
  {
    hide Dense, Images;
    assert u.spentKeys + Elements(TxsImages([])) == u.spentKeys;
    assert hash in u.txIndices <==> hash in t.txIndices.Keys + Elements(hashes);
  }

  /** The error with which a block is refused: for lists of different length, or for the
      first transaction that is not acceptable after those before it, or else for a
      block that is known, whose parent is unknown, or whose parent is not on top. */
  lemma AddBlockErrors(t: Tables, blk: Block, info: BlockInfo, txs: seq<Transaction>)
    requires Dense(t) && AllTxsSupported([blk.minerTx] + txs) && AddBlock(t, blk, info, txs).Err?
    ensures |blk.txHashes| != |txs| ==> AddBlock(t, blk, info, txs).error == InconsistentSizes
    ensures |blk.txHashes| == |txs| ==>
      var all, hashes := [blk.minerTx] + txs, [blk.minerTxHash] + blk.txHashes;
      && (AcceptableTxs(t, all, hashes) ==>
            AddBlock(t, blk, info, txs).error ==
              if blk.hash in t.blockHeights then BlockExists
              else if blk.prevId !in t.blockHeights then DbError
              else BlockParentDne)
      && (!AcceptableTxs(t, all, hashes) ==> exists m: nat :: m < |all| && FirstRefused(t, all, hashes, m))
      && forall m: nat :: m < |all| && FirstRefused(t, all, hashes, m) ==>
        AddBlock(t, blk, info, txs).error == Refusal(t, all[..m], hashes[..m], all[m], hashes[m])
  {
    hide AddTx, AddTxs, Refusal, AcceptableTxs, Dense;
    if |blk.txHashes| == |txs| {
      var all, hashes := [blk.minerTx] + txs, [blk.minerTxHash] + blk.txHashes;
      AddTxsCons(t, blk.minerTx, blk.minerTxHash, txs, blk.txHashes);
      AddTxsAccepts(t, all, hashes);
      if !AcceptableTxs(t, all, hashes) {
        var _ := SomeRefused(t, all, hashes);
      }
      forall m: nat | m < |all| && FirstRefused(t, all, hashes, m)
        ensures AddTxs(t, all, hashes) == Err(Refusal(t, all[..m], hashes[..m], all[m], hashes[m]))
      {
        AddTxsError(t, all, hashes, m);
      }
    }
  }
}
