/** Exactly when popping a block restores the store, also for transactions whose
    outputs are filed under one amount and looked for under another. */
module BlockBalance {
  import opened SharedTypes
  import opened Lists
  import opened BlockTables
  import opened BlockOps
  import opened BlockRoundTrip
  import opened BlockChain
  import opened BlockRemoval

  // ---- The outputs of a block as one list ---------------------------------------------

  /** The amounts under which the first `n` outputs are filed. */
  function FiledAmounts(tx: Transaction, n: nat): (s: seq<nat>)
    requires n <= |tx.vout|
    ensures |s| == n
  {
    if n == 0 then [] else FiledAmounts(tx, n - 1) + [FiledAmount(tx, Gen in tx.vin, n - 1)]
  }

  /** The amounts under which the removal looks for them. */
  function SoughtAmounts(tx: Transaction, n: nat): (s: seq<nat>)
    requires n <= |tx.vout|
    ensures |s| == n
  {
    if n == 0 then [] else SoughtAmounts(tx, n - 1) + [SoughtAmount(tx, n - 1)]
  }

  function TxsFiled(txs: seq<Transaction>): (s: seq<nat>) {
    if txs == [] then []
    else var n := |txs| - 1; TxsFiled(txs[..n]) + FiledAmounts(txs[n], |txs[n].vout|)
  }

  function TxsSought(txs: seq<Transaction>): (s: seq<nat>)
    ensures |s| == |TxsFiled(txs)|
  {
    if txs == [] then []
    else var n := |txs| - 1; TxsSought(txs[..n]) + SoughtAmounts(txs[n], |txs[n].vout|)
  }

  function Occurrences(s: seq<nat>, a: nat): (n: nat) {
    if s == [] then 0
    else Occurrences(s[..|s| - 1], a) + if s[|s| - 1] == a then 1 else 0
  }

  /** The indices that outputs filed one after the other under `amounts` get. */
  ghost function Indices(outs: Outputs, amounts: seq<nat>): (s: seq<nat>)
    ensures |s| == |amounts|
  {
    if amounts == [] then []
    else
      var n := |amounts| - 1;
      Indices(outs, amounts[..n]) + [Count(outs, amounts[n]) + Occurrences(amounts[..n], amounts[n])]
  }

  function Slots(amounts: seq<nat>, indices: seq<nat>): (s: seq<Slot>)
    requires |amounts| == |indices|
  {
    seq(|amounts|, k requires 0 <= k < |amounts| => Slot(amounts[k], indices[k]))
  }

  /** The slots in which the outputs of `txs` are filed are, taken together, the
      slots in which the removal looks for them. */
  ghost predicate Balanced(outs: Outputs, txs: seq<Transaction>) {
    var indices := Indices(outs, TxsFiled(txs));
    Elements(Slots(TxsFiled(txs), indices)) == Elements(Slots(TxsSought(txs), indices))
  }

  lemma {:induction false} AgreeingIsBalanced(outs: Outputs, txs: seq<Transaction>)
    requires AllSidesAgree(txs)
    ensures TxsFiled(txs) == TxsSought(txs) && Balanced(outs, txs)
  {
    if txs != [] {
      var n := |txs| - 1;
      assert txs[n] in txs;
      AgreeingIsBalanced(outs, txs[..n]);
      AgreeingAmounts(txs[n], |txs[n].vout|);
    }
  }

  lemma {:induction false} AgreeingAmounts(tx: Transaction, n: nat)
    requires SidesAgree(tx) && n <= |tx.vout|
    ensures FiledAmounts(tx, n) == SoughtAmounts(tx, n)
  {
    if n > 0 {
      AgreeingAmounts(tx, n - 1);
      SidesAgreeAt(tx, n - 1);
      FiledAs(tx, Gen in tx.vin, n - 1);
      SoughtAs(tx, n - 1);
    }
  }

  // ---- Filing a list of outputs ---------------------------------------------------------

  function AddAll(outs: Outputs, os: seq<NewOutput>): (r: DbResult<(Outputs, seq<nat>)>)
    ensures r.Ok? ==> |r.value.1| == |os|
  {
    if os == [] then Ok((outs, []))
    else
      var n := |os| - 1;
      var u :- AddAll(outs, os[..n]);
      var v :- AddOutput(u.0, os[n]);
      Ok((v.0, u.1 + [v.1]))
  }

  function Amounts(os: seq<NewOutput>): (s: seq<nat>)
    ensures |s| == |os|
  {
    if os == [] then [] else Amounts(os[..|os| - 1]) + [os[|os| - 1].out.amount]
  }

  lemma {:induction false} AddAllSplit(outs: Outputs, a: seq<NewOutput>, b: seq<NewOutput>)
    ensures AddAll(outs, a + b).Ok? <==> AddAll(outs, a).Ok? && AddAll(AddAll(outs, a).value.0, b).Ok?
    ensures AddAll(outs, a + b).Ok? ==>
      var u := AddAll(outs, a).value;
      AddAll(outs, a + b) == Ok((AddAll(u.0, b).value.0, u.1 + AddAll(u.0, b).value.1))
    ensures Amounts(a + b) == Amounts(a) + Amounts(b)
  {
    hide AddOutput;
    if b == [] {
      assert a + b == a;
      if AddAll(outs, a).Ok? {
        assert AddAll(outs, a).value.1 + [] == AddAll(outs, a).value.1;
      }
    } else {
      var n := |b| - 1;
      assert (a + b)[..|a + b| - 1] == a + b[..n] && (a + b)[|a + b| - 1] == b[n];
      AddAllSplit(outs, a, b[..n]);
      if AddAll(outs, a + b).Ok? {
        var u := AddAll(outs, a).value;
        var v := AddAll(u.0, b[..n]).value;
        assert u.1 + v.1 + [AddOutput(v.0, b[n]).value.1] == u.1 + (v.1 + [AddOutput(v.0, b[n]).value.1]);
      }
    }
  }

  /** `m'` is `m` with new entries in the slots. */
  ghost predicate NewSlots(m: map<Slot, OutKey>, m': map<Slot, OutKey>, slots: seq<Slot>) {
    && Distinct(slots) && Elements(slots) !! m.Keys
    && m'.Keys == m.Keys + Elements(slots)
    && forall s :: s in m ==> m'[s] == m[s]
  }

  /** `m'` is `m` with `n` entries more, under the next ids. */
  ghost predicate NewIds(m: map<nat, OutTx>, m': map<nat, OutTx>, n: nat) {
    && |m'| == |m| + n
    && (n > 0 ==> Above(m.Keys, |m|))
    && (forall i :: i in m' <==> i in m || |m| <= i < |m| + n)
    && forall i :: i in m ==> m'[i] == m[i]
  }

  /** The outputs in the slots have the ids from `first` on. */
  ghost predicate Numbered(m: map<Slot, OutKey>, slots: seq<Slot>, first: nat) {
    forall k: nat :: k < |slots| ==> slots[k] in m && m[slots[k]].outputId == first + k
  }

  /** `v` is `outs` with outputs added in the slots, under the next ids in order. */
  ghost predicate Grown(outs: Outputs, v: Outputs, slots: seq<Slot>) {
    && NewSlots(outs.amounts, v.amounts, slots)
    && NewIds(outs.txs, v.txs, |slots|)
    && Numbered(v.amounts, slots, |outs.txs|)
  }

  lemma NewSlotsMore(m: map<Slot, OutKey>, m': map<Slot, OutKey>, slots: seq<Slot>, s: Slot, key: OutKey)
    requires NewSlots(m, m', slots) && s !in m'
    ensures NewSlots(m, m'[s := key], slots + [s])
  {
    ListMore(slots, s);
  }

  lemma NewIdsMore(m: map<nat, OutTx>, m': map<nat, OutTx>, n: nat, ot: OutTx)
    requires NewIds(m, m', n) && Above(m'.Keys, |m'|)
    ensures NewIds(m, m'[|m'| := ot], n + 1)
  {
    assert |m'| !in m';
  }

  lemma NumberedMore(m: map<Slot, OutKey>, slots: seq<Slot>, first: nat, s: Slot, key: OutKey)
    requires Numbered(m, slots, first) && s !in m && key.outputId == first + |slots|
    ensures Numbered(m[s := key], slots + [s], first)
  {
  }

  lemma GrownMore(outs: Outputs, u: Outputs, v: Outputs, slots: seq<Slot>, s: Slot, key: OutKey, ot: OutTx)
    requires Grown(outs, u, slots) && Inserted(u, v, s, key, ot) && Above(u.txs.Keys, |u.txs|)
    ensures Grown(outs, v, slots + [s])
  {
    assert |u.txs| == |outs.txs| + |slots|;
    hide NewSlots, NewIds, Numbered;
    NewSlotsMore(outs.amounts, u.amounts, slots, s, key);
    NewIdsMore(outs.txs, u.txs, |slots|, ot);
    NumberedMore(u.amounts, slots, |outs.txs|, s, key);
  }

  lemma {:induction false} AddAllCounts(outs: Outputs, os: seq<NewOutput>, a: nat)
    requires AddAll(outs, os).Ok?
    ensures Count(AddAll(outs, os).value.0, a) == Count(outs, a) + Occurrences(Amounts(os), a)
  {
    hide AddOutput, Count, Inserted;
    if os != [] {
      var n := |os| - 1;
      AddAllCounts(outs, os[..n], a);
      var u, o := AddAll(outs, os[..n]).value.0, os[n];
      var v := AddOutput(u, o).value;
      AddOutputInserts(u, o);
      InsertedCount(u, v.0, Slot(o.out.amount, v.1), KeyOf(u, o), OutTx(o.hash, o.local), a);
    }
  }

  lemma {:induction false} AddAllIndices(outs: Outputs, os: seq<NewOutput>)
    requires AddAll(outs, os).Ok?
    ensures AddAll(outs, os).value.1 == Indices(outs, Amounts(os))
  {
    hide AddOutput, Count, Inserted;
    if os != [] {
      var n := |os| - 1;
      AddAllIndices(outs, os[..n]);
      AddAllCounts(outs, os[..n], os[n].out.amount);
      AddOutputInserts(AddAll(outs, os[..n]).value.0, os[n]);
    }
  }

  lemma {:induction false} AddAllGrows(outs: Outputs, os: seq<NewOutput>)
    requires AddAll(outs, os).Ok?
    ensures Grown(outs, AddAll(outs, os).value.0, Slots(Amounts(os), AddAll(outs, os).value.1))
  {
    hide AddOutput, Grown, Inserted, Count;
    if os == [] {
      NothingGrown(outs);
      assert Slots([], []) == [];
    } else {
      var n := |os| - 1;
      var u, o := AddAll(outs, os[..n]).value, os[n];
      AddAllGrows(outs, os[..n]);
      var v := AddOutput(u.0, o).value;
      AddOutputInserts(u.0, o);
      AddOutputAppends(u.0, o);
      var slot := Slot(o.out.amount, v.1);
      GrownMore(outs, u.0, v.0, Slots(Amounts(os[..n]), u.1), slot, KeyOf(u.0, o), OutTx(o.hash, o.local));
      assert Slots(Amounts(os), u.1 + [v.1]) == Slots(Amounts(os[..n]), u.1) + [slot];
    }
  }

  lemma AddOutputAppends(outs: Outputs, o: NewOutput)
    requires AddOutput(outs, o).Ok?
    ensures Above(outs.txs.Keys, |outs.txs|)
  {
  }

  lemma NothingGrown(outs: Outputs)
    ensures Grown(outs, outs, [])
  {
  }

  // ---- Removing a list of slots ------------------------------------------------------------

  /** Removes the outputs in the slots, last one first. */
  function RemoveSlots(outs: Outputs, slots: seq<Slot>): (r: DbResult<Outputs>)
    decreases |slots|
  {
    if slots == [] then Ok(outs)
    else
      var n := |slots| - 1;
      var u :- RemoveOutput(outs, slots[n].amount, slots[n].index);
      RemoveSlots(u, slots[..n])
  }

  lemma {:induction false} RemoveSlotsSplit(outs: Outputs, a: seq<Slot>, b: seq<Slot>)
    ensures RemoveSlots(outs, a + b) ==
      match RemoveSlots(outs, b)
      case Ok(u) => RemoveSlots(u, a)
      case Err(e) => Err(e)
    decreases |b|
  {
    hide RemoveOutput;
    if b == [] {
      assert a + b == a;
    } else {
      var n := |b| - 1;
      assert (a + b)[..|a + b| - 1] == a + b[..n];
      if RemoveOutput(outs, b[n].amount, b[n].index).Ok? {
        RemoveSlotsSplit(RemoveOutput(outs, b[n].amount, b[n].index).value, a, b[..n]);
      }
    }
  }

  lemma MinusTwice<K, V>(m: map<K, V>, k: K, ks: set<K>)
    ensures m - {k} - ks == m - (ks + {k})
  {
  }

  lemma {:induction false} RemovedAmounts(outs: Outputs, slots: seq<Slot>)
    requires RemoveSlots(outs, slots).Ok?
    ensures Elements(slots) <= outs.amounts.Keys
    ensures RemoveSlots(outs, slots).value.amounts == outs.amounts - Elements(slots)
    decreases |slots|
  {
    if slots == [] {
      assert outs.amounts - Elements(slots) == outs.amounts;
    } else {
      var n := |slots| - 1;
      RemovedAmounts(RemoveOutput(outs, slots[n].amount, slots[n].index).value, slots[..n]);
      ListMore(slots[..n], slots[n]);
      assert slots == slots[..n] + [slots[n]];
      hide Elements;
      MinusTwice(outs.amounts, slots[n], Elements(slots[..n]));
    }
  }

  /** No two of the slots hold the same output id, and each id has its row. */
  ghost predicate OwnIds(outs: Outputs, slots: seq<Slot>) {
    && (forall s :: s in slots ==> s in outs.amounts && outs.amounts[s].outputId in outs.txs)
    && forall s, s' :: s in slots && s' in slots && outs.amounts[s].outputId == outs.amounts[s'].outputId ==> s == s'
  }

  ghost function IdsIn(outs: Outputs, slots: seq<Slot>): (ids: set<nat>)
    requires OwnIds(outs, slots)
  {
    set s | s in slots :: outs.amounts[s].outputId
  }

  lemma FrontOwnsIds(outs: Outputs, u: Outputs, front: seq<Slot>, s: Slot)
    requires OwnIds(outs, front + [s]) && s !in front
    requires u == Outputs(outs.txs - {outs.amounts[s].outputId}, outs.amounts - {s})
    ensures OwnIds(u, front) && IdsIn(outs, front + [s]) == IdsIn(u, front) + {outs.amounts[s].outputId}
  {
    assert s in front + [s];
    assert forall x :: x in front ==> x in front + [s] && u.amounts[x] == outs.amounts[x];
  }

  lemma {:induction false} RemovalGoesThrough(outs: Outputs, slots: seq<Slot>)
    requires Distinct(slots) && OwnIds(outs, slots)
    ensures RemoveSlots(outs, slots) == Ok(Outputs(outs.txs - IdsIn(outs, slots), outs.amounts - Elements(slots)))
    decreases |slots|
  {
    if slots == [] {
      assert outs.amounts - Elements(slots) == outs.amounts;
      assert outs.txs - IdsIn(outs, slots) == outs.txs;
    } else {
      var n := |slots| - 1;
      var front, s := slots[..n], slots[n];
      assert slots == front + [s];
      ListMore(front, s);
      var u := Outputs(outs.txs - {outs.amounts[s].outputId}, outs.amounts - {s});
      assert RemoveOutput(outs, s.amount, s.index) == Ok(u);
      FrontOwnsIds(outs, u, front, s);
      hide OwnIds, IdsIn, Elements, Distinct, RemoveOutput;
      RemovalGoesThrough(u, front);
      MinusTwice(outs.amounts, s, Elements(front));
      MinusTwice(outs.txs, outs.amounts[s].outputId, IdsIn(u, front));
    }
  }

  lemma {:induction false} DistinctByCount<T>(s: seq<T>)
    ensures |Elements(s)| <= |s|
    ensures |Elements(s)| == |s| <==> Distinct(s)
  {
    if s != [] {
      var n := |s| - 1;
      DistinctByCount(s[..n]);
      assert s == s[..n] + [s[n]];
      ListMore(s[..n], s[n]);
    }
  }

  /** Removing as many slots as were filled restores the tables exactly when they
      are the same slots. */
  lemma RemovalRestoresIff(outs: Outputs, v: Outputs, filed: seq<Slot>, sought: seq<Slot>)
    requires Grown(outs, v, filed) && |sought| == |filed|
    ensures RemoveSlots(v, sought) == Ok(outs) <==> Elements(sought) == Elements(filed)
  {
    if Elements(sought) == Elements(filed) {
      DistinctByCount(filed);
      DistinctByCount(sought);
      GrownOwnIds(outs, v, filed, sought);
      RemovalGoesThrough(v, sought);
      GrownRest(outs, v, filed, sought);
    }
    if RemoveSlots(v, sought) == Ok(outs) {
      RemovedAmounts(v, sought);
      assert (v.amounts - Elements(sought)).Keys == v.amounts.Keys - Elements(sought);
      assert Elements(sought) == Elements(filed);
    }
  }

  lemma FiledId(outs: Outputs, v: Outputs, filed: seq<Slot>, s: Slot) returns (k: nat)
    requires Grown(outs, v, filed) && s in Elements(filed)
    ensures k < |filed| && filed[k] == s
    ensures s in v.amounts && v.amounts[s].outputId == |outs.txs| + k && |outs.txs| + k in v.txs
  {
    k :| k < |filed| && filed[k] == s;
  }

  lemma GrownOwnIds(outs: Outputs, v: Outputs, filed: seq<Slot>, sought: seq<Slot>)
    requires Grown(outs, v, filed) && Elements(sought) == Elements(filed)
    ensures OwnIds(v, sought)
  {
    hide Grown;
    forall s | s in sought ensures s in v.amounts && v.amounts[s].outputId in v.txs {
      assert s in Elements(sought);
      var _ := FiledId(outs, v, filed, s);
    }
    forall s, s' | s in sought && s' in sought && v.amounts[s].outputId == v.amounts[s'].outputId ensures s == s' {
      assert s in Elements(sought) && s' in Elements(sought);
      var k := FiledId(outs, v, filed, s);
      var k' := FiledId(outs, v, filed, s');
    }
  }

  lemma IdsAreNew(outs: Outputs, v: Outputs, filed: seq<Slot>, sought: seq<Slot>, i: nat)
    requires Grown(outs, v, filed) && Elements(sought) == Elements(filed) && OwnIds(v, sought)
    ensures i in IdsIn(v, sought) <==> |outs.txs| <= i < |outs.txs| + |filed|
  {
    if i in IdsIn(v, sought) {
      hide Grown;
      var s :| s in sought && i == v.amounts[s].outputId;
      assert s in Elements(sought);
      var _ := FiledId(outs, v, filed, s);
    }
    if |outs.txs| <= i < |outs.txs| + |filed| {
      hide NewSlots, NewIds;
      var s := filed[i - |outs.txs|];
      assert s in Elements(sought);
      assert v.amounts[s].outputId == i;
    }
  }

  lemma GrownRest(outs: Outputs, v: Outputs, filed: seq<Slot>, sought: seq<Slot>)
    requires Grown(outs, v, filed) && Elements(sought) == Elements(filed) && OwnIds(v, sought)
    ensures v.txs - IdsIn(v, sought) == outs.txs
    ensures v.amounts - Elements(sought) == outs.amounts
  {
    hide OwnIds, IdsIn;
    forall i: nat ensures i in IdsIn(v, sought) <==> |outs.txs| <= i < |outs.txs| + |filed| {
      IdsAreNew(outs, v, filed, sought, i);
    }
    GrownRestIds(outs.txs, v.txs, |filed|, IdsIn(v, sought));
    GrownRestSlots(outs.amounts, v.amounts, filed);
  }

  lemma GrownRestSlots(m: map<Slot, OutKey>, m': map<Slot, OutKey>, slots: seq<Slot>)
    requires NewSlots(m, m', slots)
    ensures m' - Elements(slots) == m
  {
  }

  lemma GrownRestIds(m: map<nat, OutTx>, m': map<nat, OutTx>, n: nat, ids: set<nat>)
    requires NewIds(m, m', n)
    requires forall i: nat :: i in ids <==> |m| <= i < |m| + n
    ensures m' - ids == m
  {
  }

  // ---- Transactions and blocks ---------------------------------------------------------------

  function OutputsOf(height: nat, hash: Hash, tx: Transaction, n: nat): (os: seq<NewOutput>)
    requires n <= |tx.vout|
  {
    if n == 0 then [] else OutputsOf(height, hash, tx, n - 1) + [OutputOf(height, hash, tx, Gen in tx.vin, n - 1)]
  }

  function TxsOutputs(height: nat, txs: seq<Transaction>, hashes: seq<Hash>): (os: seq<NewOutput>)
    requires |txs| == |hashes|
  {
    if txs == [] then []
    else
      var n := |txs| - 1;
      TxsOutputs(height, txs[..n], hashes[..n]) + OutputsOf(height, hashes[n], txs[n], |txs[n].vout|)
  }

  lemma {:induction false} AddOutputsIsAll(outs: Outputs, height: nat, hash: Hash, tx: Transaction, n: nat)
    requires n <= |tx.vout|
    ensures AddOutputs(outs, height, hash, tx, Gen in tx.vin, n) == AddAll(outs, OutputsOf(height, hash, tx, n))
  {
    hide AddOutput, OutputOf;
    if n > 0 {
      AddOutputsIsAll(outs, height, hash, tx, n - 1);
      var os := OutputsOf(height, hash, tx, n);
      assert os[..|os| - 1] == OutputsOf(height, hash, tx, n - 1);
    }
  }

  lemma {:induction false} AmountsOfOutputs(height: nat, hash: Hash, tx: Transaction, n: nat)
    requires n <= |tx.vout|
    ensures Amounts(OutputsOf(height, hash, tx, n)) == FiledAmounts(tx, n)
  {
    if n > 0 {
      AmountsOfOutputs(height, hash, tx, n - 1);
      FiledAs(tx, Gen in tx.vin, n - 1);
      var os := OutputsOf(height, hash, tx, n);
      assert os[..|os| - 1] == OutputsOf(height, hash, tx, n - 1);
    }
  }

  lemma {:induction false} RemoveOutputsIsSlots(outs: Outputs, tx: Transaction, indices: seq<nat>, n: nat)
    requires n <= |tx.vout| == |indices|
    ensures RemoveOutputs(outs, tx, indices, n) == RemoveSlots(outs, Slots(SoughtAmounts(tx, n), indices[..n]))
    decreases n
  {
    hide RemoveOutput;
    if n > 0 {
      var slots := Slots(SoughtAmounts(tx, n), indices[..n]);
      SoughtAs(tx, n - 1);
      assert slots[..n - 1] == Slots(SoughtAmounts(tx, n - 1), indices[..n - 1]);
      assert slots[n - 1] == Slot(RemovalAmount(tx, n - 1), indices[n - 1]);
      if RemoveOutput(outs, RemovalAmount(tx, n - 1), indices[n - 1]).Ok? {
        RemoveOutputsIsSlots(RemoveOutput(outs, RemovalAmount(tx, n - 1), indices[n - 1]).value, tx, indices, n - 1);
      }
    }
  }

  lemma {:induction false} AddTxsOutputs(t: Tables, txs: seq<Transaction>, hashes: seq<Hash>)
    requires |txs| == |hashes| && AllTxsSupported(txs) && AddTxs(t, txs, hashes).Ok?
    ensures AddTxs(t, txs, hashes).value.blocks == t.blocks
    ensures var r := AddAll(t.outs, TxsOutputs(|t.blocks|, txs, hashes));
      r.Ok? && r.value.0 == AddTxs(t, txs, hashes).value.outs
    ensures Amounts(TxsOutputs(|t.blocks|, txs, hashes)) == TxsFiled(txs)
  {
    hide AddTx, AddAll, OutputsOf, Amounts, NewOutputs;
    if txs == [] {
      NoOutputs(t.outs);
    } else {
      var n := |txs| - 1;
      AddTxsOutputs(t, txs[..n], hashes[..n]);
      var u := AddTxs(t, txs[..n], hashes[..n]).value;
      assert txs[n] in txs;
      AddTxOutputs(u, txs[n], hashes[n]);
      AddAllSplit(t.outs, TxsOutputs(|t.blocks|, txs[..n], hashes[..n]),
                  OutputsOf(|t.blocks|, hashes[n], txs[n], |txs[n].vout|));
    }
  }

  lemma NoOutputs(outs: Outputs)
    ensures AddAll(outs, []) == Ok((outs, [])) && Amounts([]) == []
  {
  }

  lemma AddTxOutputs(t: Tables, tx: Transaction, hash: Hash)
    requires AllSupported(tx.vin) && AddTx(t, tx, hash).Ok?
    ensures AddTx(t, tx, hash).value.blocks == t.blocks
    ensures var os := OutputsOf(|t.blocks|, hash, tx, |tx.vout|);
      && AddAll(t.outs, os) == NewOutputs(t, tx, hash)
      && NewOutputs(t, tx, hash).Ok? && AddTx(t, tx, hash).value.outs == NewOutputs(t, tx, hash).value.0
      && Amounts(os) == FiledAmounts(tx, |tx.vout|)
  {
    hide AddTx, AddOutputs;
    AddTxStores(t, tx, hash);
    AddOutputsIsAll(t.outs, |t.blocks|, hash, tx, |tx.vout|);
    AmountsOfOutputs(|t.blocks|, hash, tx, |tx.vout|);
  }

  /** The indices recorded for the outputs of `txs`, in order. */
  ghost function RecordedIndices(t: Tables, txs: seq<Transaction>, hashes: seq<Hash>): (s: seq<nat>)
    requires |txs| == |hashes| && AllTxsSupported(txs) && AddTxs(t, txs, hashes).Ok?
    ensures |s| == |TxsFiled(txs)|
  {
    AddTxsOutputs(t, txs, hashes);
    AddAll(t.outs, TxsOutputs(|t.blocks|, txs, hashes)).value.1
  }

  lemma RecordedSplit(t: Tables, txs: seq<Transaction>, hashes: seq<Hash>)
    requires |txs| == |hashes| > 0 && AllTxsSupported(txs) && AddTxs(t, txs, hashes).Ok?
    ensures var n := |txs| - 1;
      var u := AddTxs(t, txs[..n], hashes[..n]).value;
      && NewOutputs(u, txs[n], hashes[n]).Ok?
      && RecordedIndices(t, txs, hashes) ==
         RecordedIndices(t, txs[..n], hashes[..n]) + NewOutputs(u, txs[n], hashes[n]).value.1
  {
    hide AddTx, AddAll, OutputsOf, Amounts, NewOutputs;
    var n := |txs| - 1;
    var u := AddTxs(t, txs[..n], hashes[..n]).value;
    AddTxsOutputs(t, txs[..n], hashes[..n]);
    AddTxsOutputs(t, txs, hashes);
    assert txs[n] in txs;
    AddTxOutputs(u, txs[n], hashes[n]);
    AddAllSplit(t.outs, TxsOutputs(|t.blocks|, txs[..n], hashes[..n]),
                OutputsOf(|t.blocks|, hashes[n], txs[n], |txs[n].vout|));
  }

  /** Popping the transactions takes every table back, except that of the outputs
      it removes those that it looks for. */
  lemma {:induction false} PopTxsRemovesSought(t: Tables, txs: seq<Transaction>, hashes: seq<Hash>, outs: Outputs)
    requires |txs| == |hashes| && AllTxsSupported(txs) && AddTxs(t, txs, hashes).Ok?
    ensures PopTxs(AddTxs(t, txs, hashes).value.(outs := outs), hashes) ==
      match RemoveSlots(outs, Slots(TxsSought(txs), RecordedIndices(t, txs, hashes)))
      case Ok(rest) => Ok((t.(outs := rest), Reversed(txs)))
      case Err(e) => Err(e)
    decreases |txs|
  {
    hide AddTx, RemoveTx, GetTx, RecordedIndices, NewOutputs, SoughtAmounts, RemoveSlots, Slots;
    if txs == [] {
      NoSlots(outs, RecordedIndices(t, txs, hashes));
    } else {
      var n := |txs| - 1;
      var front, hs, tx := txs[..n], hashes[..n], txs[n];
      var u := AddTxs(t, front, hs).value;
      RecordedSplit(t, txs, hashes);
      assert tx in txs;
      var indices := NewOutputs(u, tx, hashes[n]).value.1;
      RemoveLast(u, tx, hashes[n], outs);
      var a, b := Slots(TxsSought(front), RecordedIndices(t, front, hs)), Slots(SoughtAmounts(tx, |tx.vout|), indices);
      SlotsSplit(TxsSought(front), RecordedIndices(t, front, hs), SoughtAmounts(tx, |tx.vout|), indices);
      RemoveSlotsSplit(outs, a, b);
      if RemoveSlots(outs, b).Ok? {
        PopTxsRemovesSought(t, front, hs, RemoveSlots(outs, b).value);
      }
    }
  }

  lemma SlotsSplit(amounts: seq<nat>, indices: seq<nat>, amounts': seq<nat>, indices': seq<nat>)
    requires |amounts| == |indices| && |amounts'| == |indices'|
    ensures Slots(amounts + amounts', indices + indices') == Slots(amounts, indices) + Slots(amounts', indices')
  {
  }

  lemma NoSlots(outs: Outputs, indices: seq<nat>)
    requires indices == []
    ensures RemoveSlots(outs, Slots([], indices)) == Ok(outs)
  {
    assert Slots([], indices) == [];
  }

  lemma RemoveLast(t: Tables, tx: Transaction, hash: Hash, outs: Outputs)
    requires AllSupported(tx.vin) && AddTx(t, tx, hash).Ok? && NewOutputs(t, tx, hash).Ok?
    ensures var u := AddTx(t, tx, hash).value.(outs := outs);
      && GetTx(u, hash) == Ok(tx)
      && RemoveTx(u, hash) ==
         match RemoveSlots(outs, Slots(SoughtAmounts(tx, |tx.vout|), NewOutputs(t, tx, hash).value.1))
         case Ok(rest) => Ok(t.(outs := rest))
         case Err(e) => Err(e)
  {
    hide AddTx, RemoveTx, NewOutputs;
    AddTxStores(t, tx, hash);
    var indices := NewOutputs(t, tx, hash).value.1;
    assert AddTx(t, tx, hash).value.(outs := outs) == Stored(t, tx, hash, outs, indices);
    RemoveStored(t, tx, hash, outs, indices);
    RemoveOutputsIsSlots(outs, tx, indices, |tx.vout|);
    assert indices[..|tx.vout|] == indices;
  }

  lemma PopTxsRestoresIff(t: Tables, txs: seq<Transaction>, hashes: seq<Hash>)
    requires |txs| == |hashes| && AllTxsSupported(txs) && AddTxs(t, txs, hashes).Ok?
    ensures var r := PopTxs(AddTxs(t, txs, hashes).value, hashes);
      && (r.Ok? && r.value.0 == t <==> Balanced(t.outs, txs))
      && (r.Ok? ==> r.value.1 == Reversed(txs))
  {
    hide AddTxs, PopTxs, AddAll, RemoveSlots, Grown, Elements, Indices;
    var u := AddTxs(t, txs, hashes).value;
    var os := TxsOutputs(|t.blocks|, txs, hashes);
    AddTxsOutputs(t, txs, hashes);
    AddAllGrows(t.outs, os);
    AddAllIndices(t.outs, os);
    var indices := RecordedIndices(t, txs, hashes);
    PopTxsRemovesSought(t, txs, hashes, u.outs);
    assert u.(outs := u.outs) == u;
    RemovalRestoresIff(t.outs, u.outs, Slots(TxsFiled(txs), indices), Slots(TxsSought(txs), indices));
  }

  lemma PopCount(t: Tables, blk: Block, info: BlockInfo, txs: seq<Transaction>)
    requires AddBlock(t, blk, info, txs).Ok? && PopBlock(AddBlock(t, blk, info, txs).value).Ok?
    requires |PopBlock(AddBlock(t, blk, info, txs).value).value.t.txs| == |t.txs|
    ensures AllTxsSupported([blk.minerTx] + txs)
  {
    hide AddTx, AddTxs, RemoveTx, PopTxs;
    var u, v := AddBlockParts(t, blk, info, txs);
    AddTxsCons(t, blk.minerTx, blk.minerTxHash, txs, blk.txHashes);
    AddTxsCount(t, [blk.minerTx] + txs, PopHashes(blk));
    PopIsRemovals(AddBlock(t, blk, info, txs).value);
    PopTxsCount(v, PopHashes(blk));
  }

  /** Adding a block and popping it restores every table, and hands back the
      block and its transactions in reverse, exactly when all inputs are of a
      supported kind and the removal looks for the block's outputs in the slots
      that the addition gives them. Both can be told before the call. */
  lemma PopRestoresIff(t: Tables, blk: Block, info: BlockInfo, txs: seq<Transaction>)
    requires AddBlock(t, blk, info, txs).Ok?
    ensures PopBlock(AddBlock(t, blk, info, txs).value) == Ok(Popped(t, blk, Reversed(txs)))
            <==> AllTxsSupported([blk.minerTx] + txs) && Balanced(t.outs, [blk.minerTx] + txs)
  {
    hide AddTx, AddTxs, RemoveTx, PopTxs, Balanced;
    var w, all := AddBlock(t, blk, info, txs).value, [blk.minerTx] + txs;
    if AllTxsSupported(all) {
      var u, v := AddBlockParts(t, blk, info, txs);
      AddTxsCons(t, blk.minerTx, blk.minerTxHash, txs, blk.txHashes);
      PopTxsRestoresIff(t, all, PopHashes(blk));
      PopIsRemovals(w);
      ReversedSplit([blk.minerTx], txs);
      ReversedTwice(txs);
      assert Reversed(all)[..|txs|] == Reversed(txs);
    } else if PopBlock(w).Ok? && |PopBlock(w).value.t.txs| == |t.txs| {
      PopCount(t, blk, info, txs);
    }
  }

  /** In particular when both sides file each transaction's outputs alike. */
  lemma AgreeingPopRestoresIff(t: Tables, blk: Block, info: BlockInfo, txs: seq<Transaction>)
    requires AddBlock(t, blk, info, txs).Ok? && AllSidesAgree([blk.minerTx] + txs)
    ensures PopBlock(AddBlock(t, blk, info, txs).value) == Ok(Popped(t, blk, Reversed(txs)))
            <==> AllTxsSupported([blk.minerTx] + txs)
  {
    PopRestoresIff(t, blk, info, txs);
    AgreeingIsBalanced(t.outs, [blk.minerTx] + txs);
  }
}
