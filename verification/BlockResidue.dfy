/** What an operation that throws has already written: an LMDB write stays in the
    write transaction until that is aborted, and an active batch does not abort it. */
module BlockResidue {
  import opened SharedTypes
  import opened BlockTables
  import opened BlockOps
  import opened Lists
  import opened BlockRoundTrip
  import opened BlockBalance
  import opened BlockInvariant
  import opened BlockAcceptance

  // ---- Adding -----------------------------------------------------------------------------

  /** The row of output_txs is written before that of output_amounts. */
  function OutputResidue(outs: Outputs, o: NewOutput): (r: Outputs) {
    if o.out.toKey && (o.out.amount != 0 || o.commitment.Some?) && Above(outs.txs.Keys, |outs.txs|)
    then outs.(txs := outs.txs[|outs.txs| := OutTx(o.hash, o.local)])
    else outs
  }

  function OutputsResidue(outs: Outputs, height: nat, hash: Hash, tx: Transaction, miner: bool, n: nat): (r: Outputs)
    requires n <= |tx.vout|
  {
    if n == 0 then outs
    else
      match AddOutputs(outs, height, hash, tx, miner, n - 1)
      case Err(_) => OutputsResidue(outs, height, hash, tx, miner, n - 1)
      case Ok(u) => OutputResidue(u.0, OutputOf(height, hash, tx, miner, n - 1))
  }

  /** The index row is written before the transaction. */
  function TransactionDataResidue(t: Tables, tx: Transaction, hash: Hash): (r: Tables) {
    if hash in t.txIndices then t
    else t.(txIndices := t.txIndices[hash := TxIndex(|t.txs|, tx.unlockTime, |t.blocks|)])
  }

  function TxDataResidue(t: Tables, tx: Transaction, hash: Hash, miner: bool): (r: Tables) {
    match AddTransactionData(t, tx, hash)
    case Err(_) => TransactionDataResidue(t, tx, hash)
    case Ok(u) =>
      match AddOutputs(u.0.outs, |u.0.blocks|, hash, tx, miner, |tx.vout|)
      case Err(_) => u.0.(outs := OutputsResidue(u.0.outs, |u.0.blocks|, hash, tx, miner, |tx.vout|))
      case Ok(v) => u.0.(outs := v.0)
  }

  function TxResidue(t: Tables, tx: Transaction, hash: Hash): (r: Tables) {
    match AddInputs(t, tx.vin)
    case Failed(u, _) => u
    case Aborted(u) => u
    case Added(u, miner) => TxDataResidue(u, tx, hash, miner)
  }

  function TxsResidue(t: Tables, txs: seq<Transaction>, hashes: seq<Hash>): (r: Tables)
    requires |txs| == |hashes|
  {
    if txs == [] then t
    else
      var n := |txs| - 1;
      match AddTxs(t, txs[..n], hashes[..n])
      case Err(_) => TxsResidue(t, txs[..n], hashes[..n])
      case Ok(u) => TxResidue(u, txs[n], hashes[n])
  }

  function BlockResidueOf(t: Tables, blk: Block, txs: seq<Transaction>): (r: Tables) {
    if |blk.txHashes| != |txs| then t
    else
      match AddTx(t, blk.minerTx, blk.minerTxHash)
      case Err(_) => TxResidue(t, blk.minerTx, blk.minerTxHash)
      case Ok(u) =>
        match AddTxs(u, txs, blk.txHashes)
        case Err(_) => TxsResidue(u, txs, blk.txHashes)
        case Ok(v) => v
  }

  // ---- Removing -----------------------------------------------------------------------------

  function RemovedOutputsResidue(outs: Outputs, tx: Transaction, indices: seq<nat>, n: nat): (r: Outputs)
    requires n <= |tx.vout| == |indices|
    decreases n
  {
    if n == 0 then outs
    else
      match RemoveOutput(outs, RemovalAmount(tx, n - 1), indices[n - 1])
      case Err(_) => outs
      case Ok(u) => RemovedOutputsResidue(u, tx, indices, n - 1)
  }

  /** The transaction is deleted first. */
  function RemovedDataResidue(t: Tables, hash: Hash, tx: Transaction): (r: Tables) {
    if hash !in t.txIndices || t.txIndices[hash].id !in t.txs then t
    else
      var id := t.txIndices[hash].id;
      var u := t.(txs := t.txs - {id});
      if id !in t.txOutputs || |t.txOutputs[id]| != |tx.vout| then u
      else u.(outs := RemovedOutputsResidue(t.outs, tx, t.txOutputs[id], |tx.vout|))
  }

  function RemovedTxResidue(t: Tables, hash: Hash): (r: Tables) {
    match GetTx(t, hash)
    case Err(_) => t
    case Ok(tx) => RemovedDataResidue(RemoveSpentKeys(t, tx.vin), hash, tx)
  }

  function PoppedTxsResidue(t: Tables, hashes: seq<Hash>): (r: Tables)
    decreases |hashes|
  {
    if hashes == [] then t
    else
      var n := |hashes| - 1;
      match RemoveTx(t, hashes[n])
      case Err(_) => RemovedTxResidue(t, hashes[n])
      case Ok(u) => PoppedTxsResidue(u, hashes[..n])
  }

  function PoppedResidue(t: Tables): (r: Tables) {
    match RemoveBlockRow(t)
    case Err(_) => t
    case Ok(u) =>
      var blk := t.blocks[|t.blocks| - 1].blk;
      match PopTxs(u, blk.txHashes)
      case Err(_) => PoppedTxsResidue(u, blk.txHashes)
      case Ok(v) => RemovedTxResidue(v.0, blk.minerTxHash)
  }

  // ---- When a throw leaves nothing -----------------------------------------------------------

  /** The first key image of the inputs is spent already, or there is none and the
      transaction is stored already. */
  predicate ThrowsAtOnce(t: Tables, tx: Transaction, hash: Hash) {
    if Images(tx.vin) == [] then hash in t.txIndices else Images(tx.vin)[0] in t.spentKeys
  }

  /** The inputs write only key images; they have written none exactly when the
      first one is refused or there is none. */
  lemma {:induction false} InputsLeave(t: Tables, vin: seq<TxIn>)
    requires AllSupported(vin)
    ensures AddInputs(t, vin).t == t.(spentKeys := AddInputs(t, vin).t.spentKeys)
    ensures AddInputs(t, vin).Failed? ==>
      Images(vin) != [] && (AddInputs(t, vin).t == t <==> Images(vin)[0] in t.spentKeys)
    ensures !AddInputs(t, vin).Failed? ==>
      && AddInputs(t, vin).Added? && (AddInputs(t, vin).t == t <==> Images(vin) == [])
      && (Images(vin) != [] ==> Images(vin)[0] !in t.spentKeys && Images(vin)[0] in AddInputs(t, vin).t.spentKeys)
  {
    if vin != [] {
      var n := |vin| - 1;
      assert vin[n] in vin;
      InputsLeave(t, vin[..n]);
    }
  }

  lemma TxResidueIff(t: Tables, tx: Transaction, hash: Hash)
    requires AllSupported(tx.vin) && AddTx(t, tx, hash).Err?
    ensures TxResidue(t, tx, hash) == t <==> ThrowsAtOnce(t, tx, hash)
  {
    hide AddOutputs, OutputsResidue, Images;
    InputsLeave(t, tx.vin);
  }

  lemma ThrowsAtOnceThrows(t: Tables, tx: Transaction, hash: Hash)
    requires AllSupported(tx.vin) && ThrowsAtOnce(t, tx, hash)
    ensures AddTx(t, tx, hash).Err?
  {
    hide AddOutputs, Images;
    InputsLeave(t, tx.vin);
  }

  /** No transaction disappears by additions. */
  lemma {:induction false} InputsKeepTxs(t: Tables, vin: seq<TxIn>)
    ensures AddInputs(t, vin).t.txs == t.txs
  {
    if vin != [] {
      InputsKeepTxs(t, vin[..|vin| - 1]);
    }
  }

  lemma TxKeepsTxs(t: Tables, tx: Transaction, hash: Hash)
    ensures AddTx(t, tx, hash).Ok? ==> t.txs.Keys <= AddTx(t, tx, hash).value.txs.Keys
    ensures t.txs.Keys <= TxResidue(t, tx, hash).txs.Keys
  {
    hide AddOutputs, OutputsResidue;
    InputsKeepTxs(t, tx.vin);
    RemoveSpentKeysIsDifference(AddInputs(t, tx.vin).t, tx.vin);
  }

  lemma {:induction false} TxsKeepTxs(t: Tables, txs: seq<Transaction>, hashes: seq<Hash>)
    requires |txs| == |hashes|
    ensures AddTxs(t, txs, hashes).Ok? ==> t.txs.Keys <= AddTxs(t, txs, hashes).value.txs.Keys
    ensures t.txs.Keys <= TxsResidue(t, txs, hashes).txs.Keys
  {
    hide AddTx, TxResidue;
    if txs != [] {
      var n := |txs| - 1;
      TxsKeepTxs(t, txs[..n], hashes[..n]);
      if AddTxs(t, txs[..n], hashes[..n]).Ok? {
        TxKeepsTxs(AddTxs(t, txs[..n], hashes[..n]).value, txs[n], hashes[n]);
      }
    }
  }

  /** An addition that throws in a batch leaves the tables as they were exactly when
      the numbers of hashes and transactions differ or the first write of its
      miner transaction is refused; one with supported inputs, that is. */
  lemma BatchThrowRestoresIff(t: Tables, blk: Block, info: BlockInfo, txs: seq<Transaction>)
    requires AddBlock(t, blk, info, txs).Err? && AllSupported(blk.minerTx.vin)
    ensures BlockResidueOf(t, blk, txs) == t <==>
      |blk.txHashes| != |txs| || ThrowsAtOnce(t, blk.minerTx, blk.minerTxHash)
  {
    hide AddTx, AddTxs, TxResidue, TxsResidue, ThrowsAtOnce;
    var r := AddTx(t, blk.minerTx, blk.minerTxHash);
    if r.Err? {
      TxResidueIff(t, blk.minerTx, blk.minerTxHash);
    } else {
      if ThrowsAtOnce(t, blk.minerTx, blk.minerTxHash) {
        ThrowsAtOnceThrows(t, blk.minerTx, blk.minerTxHash);
      }
      if |blk.txHashes| == |txs| {
        MinerIsNew(t, r.value, blk.minerTx, blk.minerTxHash);
        TxsKeepTxs(r.value, txs, blk.txHashes);
      }
    }
  }

  lemma MinerIsNew(t: Tables, u: Tables, tx: Transaction, hash: Hash)
    requires AllSupported(tx.vin) && AddTx(t, tx, hash) == Ok(u)
    ensures |t.txs| in u.txs && |t.txs| !in t.txs
  {
    AddTxStores(t, tx, hash);
  }

  // ---- What a throw leaves ---------------------------------------------------------------------

  /** Key image `m` of the list is the first that is spent or was listed before. */
  ghost predicate FirstSpent(t: Tables, images: seq<KeyImage>, m: nat) {
    && m < |images| && Distinct(images[..m]) && Elements(images[..m]) !! t.spentKeys
    && images[m] in t.spentKeys + Elements(images[..m])
  }

  lemma {:induction false} InputsStopAt(t: Tables, vin: seq<TxIn>, m: nat)
    requires AllSupported(vin) && FirstSpent(t, Images(vin), m)
    ensures AddInputs(t, vin) == Failed(t.(spentKeys := t.spentKeys + Elements(Images(vin)[..m])), KeyImageExists)
  {
    var n := |vin| - 1;
    var front := vin[..n];
    assert vin[n] in vin;
    if m < |Images(front)| {
      assert Images(vin)[..m] == Images(front)[..m] && Images(vin)[m] == Images(front)[m];
      InputsStopAt(t, front, m);
    } else {
      assert Images(vin)[..m] == Images(front);
      AddInputsSupported(t, front);
    }
  }

  ghost predicate FirstUnfit(tx: Transaction, j: nat) {
    j < |tx.vout| && AllStorable(tx, j) && !Storable(tx, j)
  }

  lemma OutputsStopAt(outs: Outputs, height: nat, hash: Hash, tx: Transaction, j: nat, n: nat)
    requires DenseOutputs(outs) && FirstUnfit(tx, j) && j < n <= |tx.vout|
    ensures AddOutputs(outs, height, hash, tx, Gen in tx.vin, n).Err?
    ensures AddOutputs(outs, height, hash, tx, Gen in tx.vin, j).Ok?
    ensures OutputsResidue(outs, height, hash, tx, Gen in tx.vin, n) ==
      AddOutputs(outs, height, hash, tx, Gen in tx.vin, j).value.0
    decreases n
  {
    hide DenseOutputs, AllStorable, Extends, OutputResidue, AddTxOutput, OutputOf;
    AddOutputsDense(outs, height, hash, tx, j);
    assert AllStorable(tx, j);
    if n > j + 1 {
      OutputsStopAt(outs, height, hash, tx, j, n - 1);
    } else {
      var u := AddOutputs(outs, height, hash, tx, Gen in tx.vin, j).value.0;
      UnfitIsRefused(u, height, hash, tx, Gen in tx.vin, j);
    }
  }

  lemma UnfitIsRefused(outs: Outputs, height: nat, hash: Hash, tx: Transaction, miner: bool, j: nat)
    requires j < |tx.vout| && !Storable(tx, j)
    ensures AddTxOutput(outs, height, hash, tx, miner, j).Err?
    ensures OutputResidue(outs, OutputOf(height, hash, tx, miner, j)) == outs
  {
  }

  /** What a refused transaction leaves on a store without gaps. If a key image is spent,
      the ones before it are there. If the hash is known, all are. If an output is unfit,
      so are the transaction, its index row and the outputs before. */
  lemma TxResidueIs(t: Tables, tx: Transaction, hash: Hash)
    requires Dense(t) && AllSupported(tx.vin)
    ensures forall m: nat :: FirstSpent(t, Images(tx.vin), m) ==>
      TxResidue(t, tx, hash) == t.(spentKeys := t.spentKeys + Elements(Images(tx.vin)[..m]))
    ensures Distinct(Images(tx.vin)) && Elements(Images(tx.vin)) !! t.spentKeys ==>
      var u := t.(spentKeys := t.spentKeys + Elements(Images(tx.vin)));
      && (hash in t.txIndices ==> TxResidue(t, tx, hash) == u)
      && forall j: nat :: hash !in t.txIndices && FirstUnfit(tx, j) ==>
        && AddOutputs(t.outs, |t.blocks|, hash, tx, Gen in tx.vin, j).Ok?
        && TxResidue(t, tx, hash) == u.(
             txIndices := t.txIndices[hash := TxIndex(|t.txs|, tx.unlockTime, |t.blocks|)],
             txs := t.txs[|t.txs| := tx],
             outs := AddOutputs(t.outs, |t.blocks|, hash, tx, Gen in tx.vin, j).value.0)
  {
    hide AddOutputs, OutputsResidue, Images, DenseOutputs;
    forall m: nat | FirstSpent(t, Images(tx.vin), m)
      ensures TxResidue(t, tx, hash) == t.(spentKeys := t.spentKeys + Elements(Images(tx.vin)[..m]))
    {
      InputsStopAt(t, tx.vin, m);
    }
    AddInputsSupported(t, tx.vin);
    forall j: nat | FirstUnfit(tx, j)
      ensures AddOutputs(t.outs, |t.blocks|, hash, tx, Gen in tx.vin, |tx.vout|).Err?
      ensures AddOutputs(t.outs, |t.blocks|, hash, tx, Gen in tx.vin, j).Ok?
      ensures OutputsResidue(t.outs, |t.blocks|, hash, tx, Gen in tx.vin, |tx.vout|) ==
        AddOutputs(t.outs, |t.blocks|, hash, tx, Gen in tx.vin, j).value.0
    {
      OutputsStopAt(t.outs, |t.blocks|, hash, tx, j, |tx.vout|);
    }
  }

  /** A removal fails when it does not find an output where it looks for it, or that has
      no row in output_txs. The outputs after it are gone then, and it and those before
      it are untouched. */
  lemma {:induction false} RemovedResidueIs(outs: Outputs, tx: Transaction, indices: seq<nat>, n: nat) returns (k: nat)
    requires n <= |tx.vout| == |indices| && RemoveOutputs(outs, tx, indices, n).Err?
    ensures k < n
    ensures var left, s := RemovedOutputsResidue(outs, tx, indices, n), Slot(SoughtAmount(tx, k), indices[k]);
      && (s in left.amounts ==> left.amounts[s].outputId !in left.txs)
      && RemoveOutputs(outs, tx, indices, n) == Err(if s in left.amounts then DbError else OutputDne)
    ensures RemoveSlots(outs, Slots(SoughtAmounts(tx, n), indices[..n])[k + 1..]) ==
      Ok(RemovedOutputsResidue(outs, tx, indices, n))
    decreases n
  {
    SoughtAs(tx, n - 1);
    var slots := Slots(SoughtAmounts(tx, n), indices[..n]);
    var r := RemoveOutput(outs, RemovalAmount(tx, n - 1), indices[n - 1]);
    if r.Err? {
      k := n - 1;
      assert slots[n..] == [];
    } else {
      k := RemovedResidueIs(r.value, tx, indices, n - 1);
      var front := Slots(SoughtAmounts(tx, n - 1), indices[..n - 1]);
      assert slots[k + 1..] == front[k + 1..] + [slots[n - 1]];
      assert slots[k + 1..][..|slots[k + 1..]| - 1] == front[k + 1..];
    }
  }
}
