/** The usage tool: which outputs exist, how often rings refer to them, and the
    histogram of these numbers. */
module OutputUsage {
  import opened RingOffsets
  import opened TxInputs

  /** A transaction with the height of its block; of an output only the amount matters. */
  datatype Tx = Tx(height: U64, vin: seq<TxIn>, vout: seq<U64>)

  /** The compared part of the original's output record. */
  datatype Key = Key(amount: U64, index: nat)

  datatype Reference = Reference(height: U64, ringSize: nat, position: nat)

  /** The mutable part of the output record, and the references to the output. */
  datatype Usage = Usage(coinbase: bool, height: U64, refs: seq<Reference>)

  datatype State = State(outputs: map<Key, Usage>, indices: map<U64, nat>)

  const EMPTY := State(map[], map[])

  // ---- The scan as a sequence of events ----------------------------------------------

  datatype Event =
    | Create(coinbase: bool, height: U64, amount: U64)
    | Refer(coinbase: bool, height: U64, key: Key, ref: Reference)

  predicate IsCoinbase(tx: Tx) {
    |tx.vin| == 1 && tx.vin[0].Gen?
  }

  function Counter(indices: map<U64, nat>, amount: U64): (n: nat) {
    if amount in indices then indices[amount] else 0
  }

  /** A new output is entered under the counter's value after the increment;
      references that came earlier stay. */
  function ApplyCreate(st: State, e: Event): (r: State)
    requires e.Create?
  {
    var n := Counter(st.indices, e.amount) + 1;
    var k := Key(e.amount, n);
    var refs := if k in st.outputs then st.outputs[k].refs else [];
    State(st.outputs[k := Usage(e.coinbase, e.height, refs)], st.indices[e.amount := n])
  }

  /** A reference to an unknown output enters it, with the data of the referring
      transaction. */
  function ApplyRefer(st: State, e: Event): (r: State)
    requires e.Refer?
  {
    var u := if e.key in st.outputs then st.outputs[e.key] else Usage(e.coinbase, e.height, []);
    st.(outputs := st.outputs[e.key := u.(refs := u.refs + [e.ref])])
  }

  function Apply(st: State, e: Event): (r: State) {
    match e
    case Create(_, _, _) => ApplyCreate(st, e)
    case Refer(_, _, _, _) => ApplyRefer(st, e)
  }

  function Fold(es: seq<Event>): (st: State) {
    if es == [] then EMPTY else Apply(Fold(es[..|es| - 1]), es[|es| - 1])
  }

  function Creates(vout: seq<U64>, coinbase: bool, height: U64, rctOnly: bool): (es: seq<Event>) {
    if vout == [] then []
    else
      var n := |vout| - 1;
      Creates(vout[..n], coinbase, height, rctOnly)
      + (if rctOnly && vout[n] != 0 then [] else [Create(coinbase, height, vout[n])])
  }

  /** References of the first `n` ring members of one input. */
  function RingRefers(amount: U64, offsets: seq<U64>, coinbase: bool, height: U64, n: nat): (es: seq<Event>)
    requires n <= |offsets|
    ensures |es| == n && forall e :: e in es ==> e.Refer?
  {
    if n == 0 then []
    else
      var e := Refer(coinbase, height, Key(amount, Absolute(offsets)[n - 1]), Reference(height, |offsets|, n - 1));
      RingRefers(amount, offsets, coinbase, height, n - 1) + [e]
  }

  function Refers(vin: seq<TxIn>, coinbase: bool, height: U64, rctOnly: bool): (es: seq<Event>) {
    if vin == [] then []
    else
      var n := |vin| - 1;
      Refers(vin[..n], coinbase, height, rctOnly) +
      (if Considered(vin[n], rctOnly)
       then RingRefers(vin[n].amount, vin[n].keyOffsets, coinbase, height, |vin[n].keyOffsets|)
       else [])
  }

  function TxEvents(tx: Tx, rctOnly: bool): (es: seq<Event>) {
    Creates(tx.vout, IsCoinbase(tx), tx.height, rctOnly) + Refers(tx.vin, IsCoinbase(tx), tx.height, rctOnly)
  }

  function Events(txs: seq<Tx>, rctOnly: bool): (es: seq<Event>) {
    if txs == [] then [] else Events(txs[..|txs| - 1], rctOnly) + TxEvents(txs[|txs| - 1], rctOnly)
  }

  // ---- The loops ---------------------------------------------------------------------

  lemma FoldMore(es: seq<Event>, e: Event)
    ensures Fold(es + [e]) == Apply(Fold(es), e)
  {
    assert (es + [e])[..|es|] == es;
  }

  lemma CreatesStep(before: seq<Event>, vout: seq<U64>, i: nat, coinbase: bool, height: U64, rctOnly: bool)
    requires i < |vout|
    ensures before + Creates(vout[..i + 1], coinbase, height, rctOnly) ==
            before + Creates(vout[..i], coinbase, height, rctOnly) +
            (if rctOnly && vout[i] != 0 then [] else [Create(coinbase, height, vout[i])])
  {
    assert vout[..i + 1][..i] == vout[..i];
  }

  method ScanOutputs(st0: State, tx: Tx, rctOnly: bool, ghost before: seq<Event>) returns (st: State)
    requires st0 == Fold(before)
    ensures st == Fold(before + Creates(tx.vout, IsCoinbase(tx), tx.height, rctOnly))
  {
    hide Fold, Creates;
    var coinbase := |tx.vin| == 1 && tx.vin[0].Gen?;
    st := st0;
    ghost var done := before;
    CreatesNone(before, coinbase, tx.height, rctOnly);
    assert tx.vout[..0] == [];
    for i := 0 to |tx.vout|
      invariant done == before + Creates(tx.vout[..i], coinbase, tx.height, rctOnly)
      invariant st == Fold(done)
    {
      var amount := tx.vout[i];
      if !(rctOnly && amount != 0) {
        ghost var e := Create(coinbase, tx.height, amount);
        FoldMore(done, e);
        var index := (if amount in st.indices then st.indices[amount] else 0) + 1;
        var od := Key(amount, index);
        var refs := if od in st.outputs then st.outputs[od].refs else [];
        st := State(st.outputs[od := Usage(coinbase, tx.height, refs)], st.indices[amount := index]);
        done := done + [e];
      }
      CreatesStep(before, tx.vout, i, coinbase, tx.height, rctOnly);
    }
    assert tx.vout[..|tx.vout|] == tx.vout;
  }

  lemma CreatesNone(before: seq<Event>, coinbase: bool, height: U64, rctOnly: bool)
    ensures before + Creates([], coinbase, height, rctOnly) == before
  {
  }

  method ScanRing(st0: State, txin: TxIn, coinbase: bool, height: U64, ghost before: seq<Event>) returns (st: State)
    requires txin.ToKey? && st0 == Fold(before)
    ensures st == Fold(before + RingRefers(txin.amount, txin.keyOffsets, coinbase, height, |txin.keyOffsets|))
  {
    hide Fold;
    var absolute := RelativeOutputOffsetsToAbsolute(txin.keyOffsets);
    st := st0;
    ghost var done := before;
    for n := 0 to |txin.keyOffsets|
      invariant done == before + RingRefers(txin.amount, txin.keyOffsets, coinbase, height, n)
      invariant st == Fold(done)
    {
      var od, ref := Key(txin.amount, absolute[n]), Reference(height, |txin.keyOffsets|, n);
      ghost var e := Refer(coinbase, height, od, ref);
      FoldMore(done, e);
      var u := if od in st.outputs then st.outputs[od] else Usage(coinbase, height, []);
      st := st.(outputs := st.outputs[od := u.(refs := u.refs + [ref])]);
      done := done + [e];
    }
  }

  method ScanInputs(st0: State, tx: Tx, rctOnly: bool, ghost before: seq<Event>) returns (st: State)
    requires st0 == Fold(before)
    ensures st == Fold(before + Refers(tx.vin, IsCoinbase(tx), tx.height, rctOnly))
  {
    hide Fold, RingRefers;
    var coinbase := |tx.vin| == 1 && tx.vin[0].Gen?;
    st := st0;
    ghost var done := before;
    for i := 0 to |tx.vin|
      invariant done == before + Refers(tx.vin[..i], coinbase, tx.height, rctOnly)
      invariant st == Fold(done)
    {
      assert tx.vin[..i + 1][..i] == tx.vin[..i];
      var txin := tx.vin[i];
      if txin.ToKey? && !(rctOnly && txin.amount != 0) {
        st := ScanRing(st, txin, coinbase, tx.height, done);
        done := done + RingRefers(txin.amount, txin.keyOffsets, coinbase, tx.height, |txin.keyOffsets|);
      }
    }
    assert tx.vin[..|tx.vin|] == tx.vin;
  }

  lemma EventsStep(txs: seq<Tx>, i: nat, rctOnly: bool)
    requires i < |txs|
    ensures Events(txs[..i + 1], rctOnly) == Events(txs[..i], rctOnly) + TxEvents(txs[i], rctOnly)
  {
    assert txs[..i + 1][..i] == txs[..i];
  }

  method ScanTransactions(txs: seq<Tx>, rctOnly: bool) returns (st: State)
    ensures st == Fold(Events(txs, rctOnly))
  {
    hide Apply, Creates, Refers;
    st := EMPTY;
    ghost var done := [];
    for i := 0 to |txs|
      invariant done == Events(txs[..i], rctOnly)
      invariant st == Fold(done)
    {
      var tx := txs[i];
      ghost var creates := Creates(tx.vout, IsCoinbase(tx), tx.height, rctOnly);
      ghost var refers := Refers(tx.vin, IsCoinbase(tx), tx.height, rctOnly);
      st := ScanOutputs(st, tx, rctOnly, done);
      st := ScanInputs(st, tx, rctOnly, done + creates);
      assert done + creates + refers == done + TxEvents(tx, rctOnly);
      done := done + TxEvents(tx, rctOnly);
      EventsStep(txs, i, rctOnly);
    }
    assert txs[..|txs|] == txs;
  }

  // ---- What the scan leaves -------------------------------------------------------------

  /** How many outputs of an amount the events create. */
  function Created(es: seq<Event>, amount: U64): (n: nat) {
    if es == [] then 0
    else Created(es[..|es| - 1], amount) + (if es[|es| - 1].Create? && es[|es| - 1].amount == amount then 1 else 0)
  }

  /** The references to an output, in order. */
  function RefsTo(es: seq<Event>, key: Key): (r: seq<Reference>) {
    if es == [] then []
    else
      RefsTo(es[..|es| - 1], key)
      + (if es[|es| - 1].Refer? && es[|es| - 1].key == key then [es[|es| - 1].ref] else [])
  }

  /** The outputs entered for creations: indices run from 1. */
  ghost predicate IsCreated(es: seq<Event>, key: Key) {
    1 <= key.index <= Created(es, key.amount)
  }

  ghost predicate Known(es: seq<Event>, key: Key) {
    IsCreated(es, key) || RefsTo(es, key) != []
  }

  ghost predicate Describes(es: seq<Event>, st: State) {
    && (forall a :: Counter(st.indices, a) == Created(es, a))
    && (forall k :: k in st.outputs <==> Known(es, k))
    && forall k :: k in st.outputs ==> st.outputs[k].refs == RefsTo(es, k)
  }

  lemma {:induction false} FoldDescribes(es: seq<Event>)
    ensures Describes(es, Fold(es))
  {
    if es == [] {
    } else {
      var n := |es| - 1;
      FoldDescribes(es[..n]);
      ApplyDescribes(es, Fold(es[..n]));
    }
  }

  lemma ApplyDescribes(es: seq<Event>, st: State)
    requires es != [] && Describes(es[..|es| - 1], st)
    ensures Describes(es, Apply(st, es[|es| - 1]))
  {
    var n := |es| - 1;
    var init, e, st' := es[..n], es[n], Apply(st, es[n]);
    assert forall a :: Created(es, a) == Created(init, a) + (if e.Create? && e.amount == a then 1 else 0);
    assert forall k :: RefsTo(es, k) == RefsTo(init, k) + (if e.Refer? && e.key == k then [e.ref] else []);
    forall k ensures k in st'.outputs <==> Known(es, k) {
      assert k in st.outputs <==> Known(init, k);
    }
    forall k | k in st'.outputs ensures st'.outputs[k].refs == RefsTo(es, k) {
      if k !in st.outputs {
        assert !Known(init, k);
      }
    }
  }
}
