/** The block store object: its methods change the tables step by step. */
module BlockStore {
  import opened SharedTypes
  import opened BlockTables
  import opened BlockOps
  import opened BlockResidue

  datatype Outcome = Done | Thrown(error: Error)

  /** `env` is what the current write transaction of the environment holds. A
      method that throws leaves its partial changes in it, until the caller
      aborts the write transaction. While a batch is active there is one write
      transaction for all calls, and aborting a single call does nothing. */
  class BlockchainDB {
    var env: Tables
    var batchActive: bool

    constructor ()
      ensures env == EMPTY && !batchActive
    {
      env := EMPTY;
      batchActive := false;
    }

    // ---- Rows, written and deleted one by one ------------------------------------------

    method AddKeyImage(k: KeyImage) returns (r: Outcome)
      modifies this`env
      ensures match AddSpentKey(old(env), k)
        case Ok(t) => r == Done && env == t
        case Err(e) => r == Thrown(e) && env == old(env)
    {
      if k in env.spentKeys {
        return Thrown(KeyImageExists);
      }
      env := env.(spentKeys := env.spentKeys + {k});
      r := Done;
    }

    method AddOutputRows(o: NewOutput) returns (r: DbResult<nat>)
      modifies this`env
      ensures match AddOutput(old(env).outs, o)
        case Ok(v) => r == Ok(v.1) && env == old(env).(outs := v.0)
        case Err(e) => r == Err(e) && env == old(env).(outs := OutputResidue(old(env).outs, o))
    {
      var outs := env.outs;
      var id := |outs.txs|;
      if !o.out.toKey || (o.out.amount == 0 && o.commitment.None?) || !Above(outs.txs.Keys, id) {
        return Err(DbError);
      }
      outs := outs.(txs := outs.txs[id := OutTx(o.hash, o.local)]);
      env := env.(outs := outs);
      var slots := SlotsOf(outs.amounts, o.out.amount);
      var index := |slots|;
      if !AboveSlots(slots, index) {
        return Err(DbError);
      }
      var stored := if o.out.amount == 0 then o.commitment else None;
      var key := OutKey(id, o.out.key, o.unlockTime, o.height, stored);
      env := env.(outs := outs.(amounts := outs.amounts[Slot(o.out.amount, index) := key]));
      r := Ok(index);
    }

    method RemoveOutputRows(amount: nat, index: nat) returns (r: Outcome)
      modifies this`env
      ensures match RemoveOutput(old(env).outs, amount, index)
        case Ok(v) => r == Done && env == old(env).(outs := v)
        case Err(e) => r == Thrown(e) && env == old(env)
    {
      var outs, slot := env.outs, Slot(amount, index);
      if slot !in outs.amounts {
        return Thrown(OutputDne);
      }
      var id := outs.amounts[slot].outputId;
      if id !in outs.txs {
        return Thrown(DbError);
      }
      env := env.(outs := outs.(txs := outs.txs - {id}));
      env := env.(outs := env.outs.(amounts := outs.amounts - {slot}));
      r := Done;
    }

    method AddTransactionRows(tx: Transaction, hash: Hash) returns (r: DbResult<nat>)
      modifies this`env
      ensures match AddTransactionData(old(env), tx, hash)
        case Ok(v) => r == Ok(v.1) && env == v.0
        case Err(e) => r == Err(e) && env == TransactionDataResidue(old(env), tx, hash)
    {
      var id := |env.txs|;
      if hash in env.txIndices {
        return Err(TxExists);
      }
      env := env.(txIndices := env.txIndices[hash := TxIndex(id, tx.unlockTime, |env.blocks|)]);
      if !Above(env.txs.Keys, id) {
        return Err(DbError);
      }
      env := env.(txs := env.txs[id := tx]);
      r := Ok(id);
    }

    method GetTransaction(hash: Hash) returns (r: DbResult<Transaction>)
      ensures r == GetTx(env, hash)
    {
      if hash !in env.txIndices {
        return Err(TxDne);
      }
      var id := env.txIndices[hash].id;
      if id !in env.txs {
        return Err(TxDne);
      }
      r := Ok(env.txs[id]);
    }

    /** The loop that removes the outputs of a transaction, last one first. */
    method RemoveOutputsOf(tx: Transaction, indices: seq<nat>) returns (r: Outcome)
      requires |indices| == |tx.vout|
      modifies this`env
      ensures match RemoveOutputs(old(env).outs, tx, indices, |tx.vout|)
        case Ok(v) => r == Done && env == old(env).(outs := v)
        case Err(e) =>
          r == Thrown(e) && env == old(env).(outs := RemovedOutputsResidue(old(env).outs, tx, indices, |tx.vout|))
    {
      hide RemoveOutput;
      ghost var env0 := env;
      var pseudoRct := tx.version >= 2 && |tx.vin| == 1 && tx.vin[0].Gen?;
      var i := |tx.vout|;
      while i > 0
        invariant 0 <= i <= |tx.vout| && env == env0.(outs := env.outs)
        invariant RemoveOutputs(env.outs, tx, indices, i) == RemoveOutputs(env0.outs, tx, indices, |tx.vout|)
        invariant RemovedOutputsResidue(env.outs, tx, indices, i) ==
          RemovedOutputsResidue(env0.outs, tx, indices, |tx.vout|)
      {
        i := i - 1;
        r := RemoveOutputRows(if pseudoRct then 0 else tx.vout[i].amount, indices[i]);
        if r.Thrown? {
          return;
        }
      }
      r := Done;
    }

    method RemoveTransactionRows(hash: Hash, tx: Transaction) returns (r: Outcome)
      modifies this`env
      ensures match RemoveTransactionData(old(env), hash, tx)
        case Ok(t) => r == Done && env == t
        case Err(e) => r == Thrown(e) && env == RemovedDataResidue(old(env), hash, tx)
    {
      if hash !in env.txIndices {
        return Thrown(TxDne);
      }
      var id := env.txIndices[hash].id;
      if id !in env.txs {
        return Thrown(DbError);
      }
      env := env.(txs := env.txs - {id});
      if id !in env.txOutputs || |env.txOutputs[id]| != |tx.vout| {
        return Thrown(DbError);
      }
      r := RemoveOutputsOf(tx, env.txOutputs[id]);
      if r.Thrown? {
        return;
      }
      env := env.(txOutputs := env.txOutputs - {id});
      env := env.(txIndices := env.txIndices - {hash});
    }

    method AddBlockRows(blk: Block, info: BlockInfo) returns (r: Outcome)
      modifies this`env
      ensures match AddBlockRow(old(env), blk, info)
        case Ok(t) => r == Done && env == t
        case Err(e) => r == Thrown(e) && env == old(env)
    {
      var height := |env.blocks|;
      if blk.hash in env.blockHeights {
        return Thrown(BlockExists);
      }
      if height > 0 {
        if blk.prevId !in env.blockHeights {
          return Thrown(DbError);
        }
        if env.blockHeights[blk.prevId] != height - 1 {
          return Thrown(BlockParentDne);
        }
      }
      env := env.(blocks := env.blocks + [BlockRow(blk, info, blk.hash)]);
      env := env.(blockHeights := env.blockHeights[blk.hash := height]);
      r := Done;
    }

    method RemoveBlockRows() returns (r: Outcome)
      modifies this`env
      ensures match RemoveBlockRow(old(env))
        case Ok(t) => r == Done && env == t
        case Err(e) => r == Thrown(e) && env == old(env)
    {
      if env.blocks == [] {
        return Thrown(BlockDne);
      }
      var top := |env.blocks| - 1;
      var hash := env.blocks[top].hash;
      if hash !in env.blockHeights {
        return Thrown(DbError);
      }
      env := env.(blockHeights := env.blockHeights - {hash});
      env := env.(blocks := env.blocks[..top]);
      r := Done;
    }

    // ---- Transactions and blocks ---------------------------------------------------------

    /** The loop over the inputs. */
    method AddInputsOf(tx: Transaction) returns (r: Inputs)
      modifies this`env
      ensures r == AddInputs(old(env), tx.vin) && env == r.t
    {
      var miner := false;
      var i := 0;
      while i < |tx.vin|
        invariant 0 <= i <= |tx.vin|
        invariant AddInputs(old(env), tx.vin[..i]) == Added(env, miner)
      {
        assert tx.vin[..i + 1][..i] == tx.vin[..i];
        AddInputsStops(old(env), tx.vin, i + 1);
        match tx.vin[i] {
          case ToKey(k) =>
            var o := AddKeyImage(k);
            if o.Thrown? {
              return Failed(env, o.error);
            }
          case Gen =>
            miner := true;
          case Unsupported =>
            return Aborted(env);
        }
        i := i + 1;
      }
      assert tx.vin[..i] == tx.vin;
      r := Added(env, miner);
    }

    method RemoveKeyImages(tx: Transaction)
      modifies this`env
      ensures env == RemoveSpentKeys(old(env), tx.vin)
    {
      for i := 0 to |tx.vin|
        invariant env == RemoveSpentKeys(old(env), tx.vin[..i])
      {
        assert tx.vin[..i + 1][..i] == tx.vin[..i];
        if tx.vin[i].ToKey? {
          env := RemoveSpentKey(env, tx.vin[i].image);
        }
      }
      assert tx.vin[..|tx.vin|] == tx.vin;
    }

    /** The loop over the outputs. */
    method AddOutputsOf(hash: Hash, tx: Transaction, miner: bool) returns (r: DbResult<seq<nat>>)
      modifies this`env
      ensures match AddOutputs(old(env).outs, |old(env).blocks|, hash, tx, miner, |tx.vout|)
        case Ok(v) => r == Ok(v.1) && env == old(env).(outs := v.0)
        case Err(e) =>
          && r == Err(e)
          && env.outs == OutputsResidue(old(env).outs, |old(env).blocks|, hash, tx, miner, |tx.vout|)
          && env == old(env).(outs := env.outs)
    {
      hide AddOutput, OutputResidue, OutputOf;
      ghost var env0 := env;
      var height, indices := |env.blocks|, [];
      for i := 0 to |tx.vout|
        invariant AddOutputs(env0.outs, height, hash, tx, miner, i) == Ok((env.outs, indices))
        invariant env == env0.(outs := env.outs)
      {
        var o := NewOutput(height, hash, tx.vout[i], i, tx.unlockTime, None);
        if miner && tx.version == 2 {
          o := o.(out := o.out.(amount := 0), commitment := Some(ZeroCommit(tx.vout[i].amount)));
        } else if tx.version > 1 {
          o := o.(commitment := Some(tx.vout[i].mask));
        }
        OutputIs(height, hash, tx, miner, i, o);
        AddOutputsStep(env0.outs, height, hash, tx, miner, i, env.outs, indices);
        var index := AddOutputRows(o);
        if index.Err? {
          return Err(index.error);
        }
        indices := indices + [index.value];
      }
      r := Ok(indices);
    }

    method AddTransaction(tx: Transaction, hash: Hash) returns (r: Outcome)
      modifies this`env
      ensures match AddTx(old(env), tx, hash)
        case Ok(t) => r == Done && env == t
        case Err(e) => r == Thrown(e) && env == TxResidue(old(env), tx, hash)
    {
      var inputs := AddInputsOf(tx);
      match inputs
      case Failed(_, e) => return Thrown(e);
      case Aborted(_) =>
        RemoveKeyImages(tx);
        return Done;
      case Added(_, miner) =>
        var id := AddTransactionRows(tx, hash);
        if id.Err? {
          return Thrown(id.error);
        }
        var indices := AddOutputsOf(hash, tx, miner);
        if indices.Err? {
          return Thrown(indices.error);
        }
        if !Above(env.txOutputs.Keys, id.value) {
          return Thrown(DbError);
        }
        env := env.(txOutputs := env.txOutputs[id.value := indices.value]);
        return Done;
    }

    method RemoveTransaction(hash: Hash) returns (r: Outcome)
      modifies this`env
      ensures match RemoveTx(old(env), hash)
        case Ok(t) => r == Done && env == t
        case Err(e) => r == Thrown(e) && env == RemovedTxResidue(old(env), hash)
    {
      var tx := GetTransaction(hash);
      if tx.Err? {
        return Thrown(tx.error);
      }
      RemoveKeyImages(tx.value);
      r := RemoveTransactionRows(hash, tx.value);
    }

    /** The loop over the block's transactions other than the miner transaction. */
    method AddTransactions(txs: seq<Transaction>, hashes: seq<Hash>) returns (r: Outcome)
      requires |txs| == |hashes|
      modifies this`env
      ensures match AddTxs(old(env), txs, hashes)
        case Ok(t) => r == Done && env == t
        case Err(e) => r == Thrown(e) && env == TxsResidue(old(env), txs, hashes)
    {
      hide AddTx, TxResidue;
      for i := 0 to |txs|
        invariant AddTxs(old(env), txs[..i], hashes[..i]) == Ok(env)
      {
        assert txs[..i + 1][..i] == txs[..i] && hashes[..i + 1][..i] == hashes[..i];
        var o := AddTransaction(txs[i], hashes[i]);
        if o.Thrown? {
          AddTxsStops(old(env), txs, hashes, i + 1);
          return o;
        }
      }
      assert txs[..|txs|] == txs && hashes[..|hashes|] == hashes;
      r := Done;
    }

    method AddBlockIn(blk: Block, info: BlockInfo, txs: seq<Transaction>) returns (r: Outcome)
      modifies this`env
      ensures match AddBlock(old(env), blk, info, txs)
        case Ok(t) => r == Done && env == t
        case Err(e) => r == Thrown(e) && env == BlockResidueOf(old(env), blk, txs)
    {
      if |blk.txHashes| != |txs| {
        return Thrown(InconsistentSizes);
      }
      r := AddTransaction(blk.minerTx, blk.minerTxHash);
      if r.Thrown? {
        return;
      }
      r := AddTransactions(txs, blk.txHashes);
      if r.Thrown? {
        return;
      }
      r := AddBlockRows(blk, info);
    }

    /** The loop that removes a block's transactions in reverse and appends them to
        the caller's list, also when it throws half-way. */
    method PopTransactions(hashes: seq<Hash>, txs0: seq<Transaction>) returns (r: Outcome, txs: seq<Transaction>)
      modifies this`env
      ensures match PopTxs(old(env), hashes)
        case Ok(v) => r == Done && env == v.0
        case Err(e) => r == Thrown(e) && env == PoppedTxsResidue(old(env), hashes)
      ensures txs == txs0 + Fetched(old(env), hashes)
    {
      hide PopTxs, RemoveTx, GetTx, Fetched, PoppedTxsResidue, RemovedTxResidue;
      txs := txs0;
      var i := |hashes|;
      ghost var whole := PopTxs(env, hashes);
      ghost var fetched, left := Fetched(env, hashes), PoppedTxsResidue(env, hashes);
      assert hashes[..i] == hashes;
      while i > 0
        invariant 0 <= i <= |hashes|
        invariant Continues(whole, PopTxs(env, hashes[..i]))
        invariant left == PoppedTxsResidue(env, hashes[..i])
        invariant txs0 + fetched == txs + Fetched(env, hashes[..i])
      {
        i := i - 1;
        PopTxsStep(env, hashes, i);
        ghost var before := txs;
        var tx := GetTransaction(hashes[i]);
        if tx.Err? {
          assert txs + [] == txs;
          return Thrown(tx.error), txs;
        }
        txs := txs + [tx.value];
        var o := RemoveTransaction(hashes[i]);
        if o.Thrown? {
          return o, txs;
        }
        assert before + ([tx.value] + Fetched(env, hashes[..i])) == txs + Fetched(env, hashes[..i]);
      }
      NothingToPop(env);
      assert hashes[..0] == [] && txs + [] == txs;
      r := Done;
    }

    /** Pops the top block and appends its transactions to the caller's list, which
        keeps those fetched before a throw. */
    method PopBlockIn(txs0: seq<Transaction>) returns (r: DbResult<Block>, txs: seq<Transaction>)
      modifies this`env
      ensures match PopBlock(old(env))
        case Ok(p) => r == Ok(p.blk) && env == p.t && txs == txs0 + p.txs
        case Err(e) => r == Err(e) && env == PoppedResidue(old(env)) && txs == txs0 + FetchedOf(old(env))
    {
      txs := txs0;
      assert txs0 + [] == txs0;
      if env.blocks == [] {
        return Err(BlockDne), txs;
      }
      var blk := env.blocks[|env.blocks| - 1].blk;
      var o := RemoveBlockRows();
      if o.Thrown? {
        return Err(o.error), txs;
      }
      o, txs := PopTransactions(blk.txHashes, txs);
      if o.Thrown? {
        return Err(o.error), txs;
      }
      o := RemoveTransaction(blk.minerTxHash);
      if o.Thrown? {
        return Err(o.error), txs;
      }
      r := Ok(blk);
    }

    /** Adding a block as the database does it: outside a batch all or nothing. */
    method AddBlockAtomically(blk: Block, info: BlockInfo, txs: seq<Transaction>) returns (r: Outcome)
      modifies this`env
      ensures match AddBlock(old(env), blk, info, txs)
        case Ok(t) => r == Done && env == t
        case Err(e) => r == Thrown(e) && env == if batchActive then BlockResidueOf(old(env), blk, txs) else old(env)
    {
      var saved := env;
      r := AddBlockIn(blk, info, txs);
      if r.Thrown? && !batchActive {
        env := saved;
      }
    }

    /** Popping a block as the database does it: outside a batch all or nothing. */
    method PopBlockAtomically(txs0: seq<Transaction>) returns (r: DbResult<Block>, txs: seq<Transaction>)
      modifies this`env
      ensures match PopBlock(old(env))
        case Ok(p) => r == Ok(p.blk) && env == p.t && txs == txs0 + p.txs
        case Err(e) =>
          && r == Err(e) && env == (if batchActive then PoppedResidue(old(env)) else old(env))
          && txs == txs0 + FetchedOf(old(env))
    {
      var saved := env;
      r, txs := PopBlockIn(txs0);
      if r.Err? && !batchActive {
        env := saved;
      }
    }
  }

  /** The transactions that a pop has fetched when it ends or throws. */
  function FetchedOf(t: Tables): (txs: seq<Transaction>) {
    if RemoveBlockRow(t).Ok? then Fetched(RemoveBlockRow(t).value, t.blocks[|t.blocks| - 1].blk.txHashes) else []
  }

  /** Both end with the same tables, or with the same error. */
  ghost predicate Continues(whole: DbResult<(Tables, seq<Transaction>)>, rest: DbResult<(Tables, seq<Transaction>)>) {
    match rest
    case Ok(v) => whole.Ok? && whole.value.0 == v.0
    case Err(e) => whole == Err(e)
  }

  /** Popping the first `n + 1` transactions: the last of them, and then the first `n`. */
  lemma PopTxsStep(t: Tables, hashes: seq<Hash>, n: nat)
    requires n < |hashes|
    ensures var h, all := hashes[n], hashes[..n + 1];
      match GetTx(t, h)
      case Err(e) => PopTxs(t, all) == Err(e) && Fetched(t, all) == [] && PoppedTxsResidue(t, all) == t
      case Ok(tx) =>
        match RemoveTx(t, h)
        case Err(e) =>
          PopTxs(t, all) == Err(e) && Fetched(t, all) == [tx] && PoppedTxsResidue(t, all) == RemovedTxResidue(t, h)
        case Ok(u) =>
          && Continues(PopTxs(t, all), PopTxs(u, hashes[..n])) && Fetched(t, all) == [tx] + Fetched(u, hashes[..n])
          && PoppedTxsResidue(t, all) == PoppedTxsResidue(u, hashes[..n])
  {
    assert hashes[..n + 1][..n] == hashes[..n];
  }

  lemma NothingToPop(t: Tables)
    ensures PopTxs(t, []) == Ok((t, [])) && Fetched(t, []) == []
  {
  }

  /** Once the input loop has stopped it stays stopped. */
  lemma {:induction false} AddInputsStops(t: Tables, vin: seq<TxIn>, n: nat)
    requires n <= |vin|
    ensures !AddInputs(t, vin[..n]).Added? ==> AddInputs(t, vin) == AddInputs(t, vin[..n])
  {
    if n < |vin| {
      AddInputsStops(t, vin[..|vin| - 1], n);
      assert vin[..|vin| - 1][..n] == vin[..n];
    } else {
      assert vin[..n] == vin;
    }
  }

  lemma {:induction false} AddOutputsStops(outs: Outputs, height: nat, hash: Hash, tx: Transaction, miner: bool, n: nat)
    requires n <= |tx.vout|
    ensures AddOutputs(outs, height, hash, tx, miner, n).Err? ==>
      && AddOutputs(outs, height, hash, tx, miner, |tx.vout|) == AddOutputs(outs, height, hash, tx, miner, n)
      && OutputsResidue(outs, height, hash, tx, miner, |tx.vout|) == OutputsResidue(outs, height, hash, tx, miner, n)
    decreases |tx.vout| - n
  {
    if n < |tx.vout| {
      AddOutputsStops(outs, height, hash, tx, miner, n + 1);
    }
  }

  lemma OutputIs(height: nat, hash: Hash, tx: Transaction, miner: bool, i: nat, o: NewOutput)
    requires i < |tx.vout| && o.height == height && o.hash == hash && o.local == i && o.unlockTime == tx.unlockTime
    requires o.out == if miner && tx.version == 2 then tx.vout[i].(amount := 0) else tx.vout[i]
    requires o.commitment ==
      if miner && tx.version == 2 then Some(ZeroCommit(tx.vout[i].amount))
      else if tx.version > 1 then Some(tx.vout[i].mask) else None
    ensures o == OutputOf(height, hash, tx, miner, i)
  {
  }

  lemma AddOutputsStep(outs0: Outputs, height: nat, hash: Hash, tx: Transaction, miner: bool, i: nat,
                       outs: Outputs, indices: seq<nat>)
    requires i < |tx.vout| && AddOutputs(outs0, height, hash, tx, miner, i) == Ok((outs, indices))
    ensures match AddOutput(outs, OutputOf(height, hash, tx, miner, i))
      case Ok(v) => AddOutputs(outs0, height, hash, tx, miner, i + 1) == Ok((v.0, indices + [v.1]))
      case Err(e) =>
        && AddOutputs(outs0, height, hash, tx, miner, |tx.vout|) == Err(e)
        && OutputsResidue(outs0, height, hash, tx, miner, |tx.vout|) ==
           OutputResidue(outs, OutputOf(height, hash, tx, miner, i))
  {
    AddOutputsStops(outs0, height, hash, tx, miner, i + 1);
  }

  lemma {:induction false} AddTxsStops(t: Tables, txs: seq<Transaction>, hashes: seq<Hash>, n: nat)
    requires n <= |txs| == |hashes|
    requires AddTxs(t, txs[..n], hashes[..n]).Err?
    ensures AddTxs(t, txs, hashes) == AddTxs(t, txs[..n], hashes[..n])
    ensures TxsResidue(t, txs, hashes) == TxsResidue(t, txs[..n], hashes[..n])
  {
    hide AddTx;
    if n == |txs| {
      assert txs[..n] == txs && hashes[..n] == hashes;
    } else {
      var m := |txs| - 1;
      assert txs[..m][..n] == txs[..n] && hashes[..m][..n] == hashes[..n];
      AddTxsStops(t, txs[..m], hashes[..m], n);
    }
  }
}
