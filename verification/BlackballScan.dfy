/** First pass of the blackball tool: reading the transaction inputs of one or
    more blockchain databases into rings, an index and a set of spent outputs. */
module BlackballScan {
  import opened SharedTypes
  import opened RingOffsets
  import opened TxInputs
  import opened RingClosure

  const TWO32: int := 0x1_0000_0000

  datatype Tx = Tx(vin: seq<TxIn>)

  type Database = seq<Tx>

  /** An input that the scan considers; `main` when it comes from the first database. */
  datatype Spend = Spend(main: bool, amount: U64, offsets: seq<U64>, image: KeyImage) {
    function AbsoluteRing(): (r: Ring) {
      Ring(amount, Absolute(offsets))
    }
  }

  function TxSpends(vin: seq<TxIn>, rctOnly: bool, main: bool): (r: seq<Spend>) {
    if vin == [] then []
    else
      var n := |vin| - 1;
      var r := TxSpends(vin[..n], rctOnly, main);
      if Considered(vin[n], rctOnly)
      then r + [Spend(main, vin[n].amount, vin[n].keyOffsets, vin[n].image)]
      else r
  }

  function DbSpends(db: Database, rctOnly: bool, main: bool): (r: seq<Spend>) {
    if db == [] then []
    else DbSpends(db[..|db| - 1], rctOnly, main) + TxSpends(db[|db| - 1].vin, rctOnly, main)
  }

  function AllSpends(dbs: seq<Database>, rctOnly: bool): (r: seq<Spend>) {
    if dbs == [] then []
    else AllSpends(dbs[..|dbs| - 1], rctOnly) + DbSpends(dbs[|dbs| - 1], rctOnly, |dbs| == 1)
  }

  /** What the scan has gathered. `relativeRings` holds relative offsets. */
  datatype Scan = Scan(
    relativeRings: map<KeyImage, seq<U64>>,
    outputs: map<OutputData, set<KeyImage>>,
    spent: set<OutputData>,
    newlySpent: set<OutputData>)

  const EMPTY := Scan(map[], map[], {}, {})

  function IndexRing(outputs: map<OutputData, set<KeyImage>>, amount: U64, absolute: seq<U64>, k: KeyImage)
    : (r: map<OutputData, set<KeyImage>>)
  {
    if absolute == [] then outputs
    else
      var n := |absolute| - 1;
      var m := IndexRing(outputs, amount, absolute[..n], k);
      var od := OutputData(amount, absolute[n]);
      m[od := (if od in m then m[od] else {}) + {k}]
  }

  /** The positions of `r0` whose value occurs in `r1`. */
  function Common(r0: seq<U64>, r1: seq<U64>): (c: seq<U64>)
    ensures forall x :: x in c <==> x in r0 && x in r1
  {
    if r0 == [] then []
    else
      var n := |r0| - 1;
      assert r0 == r0[..n] + [r0[n]];
      Common(r0[..n], r1) + (if r0[n] in r1 then [r0[n]] else [])
  }

  /** The common outputs when `sp` shows a different ring for a known key image. */
  function Shared(st: Scan, sp: Spend): (c: seq<U64>)
    requires sp.image in st.relativeRings
  {
    Common(Absolute(st.relativeRings[sp.image]), Absolute(sp.offsets))
  }

  /** `sp` repeats a known key image with a different ring of other than one offset. */
  predicate Differs(st: Scan, sp: Spend) {
    && |sp.offsets| % TWO32 != 1
    && sp.image in st.relativeRings
    && st.relativeRings[sp.image] != sp.offsets
  }

  /** The output that `sp` shows to be spent, if any. The ring size is a 32-bit number. */
  function Found(st: Scan, sp: Spend): (r: set<OutputData>) {
    if |sp.offsets| % TWO32 == 1 then {OutputData(sp.amount, sp.offsets[0])}
    else if Differs(st, sp) && |Shared(st, sp)| == 1 then {OutputData(sp.amount, Shared(st, sp)[0])}
    else {}
  }

  /** The relative ring stored for the key image of `sp`. After a fork merge it
      is not the intersection: the fork's relative offsets stay in it. */
  function NewRing(st: Scan, sp: Spend): (r: seq<U64>) {
    if Differs(st, sp) && |Shared(st, sp)| > 1 then Relative(sp.offsets + Shared(st, sp)) else sp.offsets
  }

  /** One considered input. */
  function ScanSpend(st: Scan, sp: Spend): (r: Scan) {
    Scan(
      st.relativeRings[sp.image := NewRing(st, sp)],
      if sp.main then IndexRing(st.outputs, sp.amount, Absolute(sp.offsets), sp.image) else st.outputs,
      st.spent + Found(st, sp),
      st.newlySpent + Found(st, sp))
  }

  function ScanAll(spends: seq<Spend>): (r: Scan) {
    if spends == [] then EMPTY
    else ScanSpend(ScanAll(spends[..|spends| - 1]), spends[|spends| - 1])
  }

  lemma {:induction false} ScanMore(spends: seq<Spend>, sp: Spend)
    ensures ScanAll(spends + [sp]) == ScanSpend(ScanAll(spends), sp)
  {
    assert (spends + [sp])[..|spends|] == spends;
  }

  /** The outputs of the first ring that the second ring shares; the loop of the fork comparison. */
  method CommonOutputs(r0: seq<U64>, r1: seq<U64>) returns (common: seq<U64>)
    ensures common == Common(r0, r1)
  {
    common := [];
    for i := 0 to |r0|
      invariant common == Common(r0[..i], r1)
    {
      assert r0[..i + 1][..i] == r0[..i];
      if r0[i] in r1 {
        common := common + [r0[i]];
      }
    }
    assert r0[..|r0|] == r0;
  }

  lemma {:induction false} CommonOfCommon(r0: seq<U64>, r1: seq<U64>, common: seq<U64>)
    requires forall x :: x in r0 ==> (x in common <==> x in r1)
    ensures Common(r0, common) == Common(r0, r1)
  {
    if r0 != [] {
      CommonOfCommon(r0[..|r0| - 1], r1, common);
      assert r0[|r0| - 1] in r0;
    }
  }

  /** Enters one ring of the first database into the index. */
  method IndexOutputs(outputs0: map<OutputData, set<KeyImage>>, amount: U64, absolute: seq<U64>, k: KeyImage)
    returns (outputs: map<OutputData, set<KeyImage>>)
    ensures outputs == IndexRing(outputs0, amount, absolute, k)
  {
    outputs := outputs0;
    for i := 0 to |absolute|
      invariant outputs == IndexRing(outputs0, amount, absolute[..i], k)
    {
      assert absolute[..i + 1][..i] == absolute[..i];
      var od := OutputData(amount, absolute[i]);
      outputs := outputs[od := (if od in outputs then outputs[od] else {}) + {k}];
    }
    assert absolute[..|absolute|] == absolute;
  }

  /** Appends to the fork's offsets, still relative, the common outputs, which
      are absolute, and converts the mixture to relative offsets. */
  method MergeRings(offsets: seq<U64>, r0: seq<U64>, ghost r1: seq<U64>, common: seq<U64>) returns (newRing: seq<U64>)
    requires common == Common(r0, r1)
    ensures newRing == Relative(offsets + common)
  {
    newRing := offsets;
    for i := 0 to |r0|
      invariant newRing == offsets + Common(r0[..i], common)
    {
      assert r0[..i + 1][..i] == r0[..i];
      if r0[i] in common {
        newRing := newRing + [r0[i]];
      }
    }
    assert r0[..|r0|] == r0;
    CommonOfCommon(r0, r1, common);
    newRing := AbsoluteOutputOffsetsToRelative(newRing);
  }

  method ScanTxIn(st0: Scan, n: nat, txin: TxIn) returns (st: Scan)
    requires txin.ToKey?
    ensures st == ScanSpend(st0, Spend(n == 0, txin.amount, txin.keyOffsets, txin.image))
  {
    hide Absolute, Relative, IndexRing, Common;
    st := st0;
    var absolute := RelativeOutputOffsetsToAbsolute(txin.keyOffsets);
    if n == 0 {
      var outputs := IndexOutputs(st.outputs, txin.amount, absolute, txin.image);
      st := st.(outputs := outputs);
    }
    var newRing := txin.keyOffsets;
    var ringSize := |txin.keyOffsets| % TWO32;
    if ringSize == 1 {
      var od := OutputData(txin.amount, txin.keyOffsets[0]);
      st := st.(newlySpent := st.newlySpent + {od}, spent := st.spent + {od});
    } else if txin.image in st.relativeRings {
      if st.relativeRings[txin.image] != txin.keyOffsets {
        var r0 := RelativeOutputOffsetsToAbsolute(st.relativeRings[txin.image]);
        var r1 := RelativeOutputOffsetsToAbsolute(txin.keyOffsets);
        var common := CommonOutputs(r0, r1);
        if |common| == 0 {
        } else if |common| == 1 {
          var od := OutputData(txin.amount, common[0]);
          st := st.(newlySpent := st.newlySpent + {od}, spent := st.spent + {od});
        } else {
          newRing := MergeRings(newRing, r0, r1, common);
        }
      }
    }
    st := st.(relativeRings := st.relativeRings[txin.image := newRing]);
  }

  lemma TxSpendsStep(before: seq<Spend>, vin: seq<TxIn>, i: nat, rctOnly: bool, main: bool)
    requires i < |vin|
    ensures before + TxSpends(vin[..i + 1], rctOnly, main) ==
            before + TxSpends(vin[..i], rctOnly, main) +
            (if Considered(vin[i], rctOnly) then [Spend(main, vin[i].amount, vin[i].keyOffsets, vin[i].image)] else [])
  {
    assert vin[..i + 1][..i] == vin[..i];
  }

  method ScanTx(st0: Scan, n: nat, tx: Tx, rctOnly: bool, ghost before: seq<Spend>) returns (st: Scan)
    requires st0 == ScanAll(before)
    ensures st == ScanAll(before + TxSpends(tx.vin, rctOnly, n == 0))
  {
    st := st0;
    ghost var done := before;
    for i := 0 to |tx.vin|
      invariant done == before + TxSpends(tx.vin[..i], rctOnly, n == 0)
      invariant st == ScanAll(done)
    {
      var txin := tx.vin[i];
      if txin.ToKey? && !(rctOnly && txin.amount != 0) {
        ghost var sp := Spend(n == 0, txin.amount, txin.keyOffsets, txin.image);
        st := ScanTxIn(st, n, txin);
        ScanMore(done, sp);
        done := done + [sp];
      }
      TxSpendsStep(before, tx.vin, i, rctOnly, n == 0);
    }
    assert tx.vin[..|tx.vin|] == tx.vin;
  }

  lemma DbSpendsStep(before: seq<Spend>, db: Database, i: nat, rctOnly: bool, main: bool)
    requires i < |db|
    ensures before + DbSpends(db[..i], rctOnly, main) + TxSpends(db[i].vin, rctOnly, main) ==
            before + DbSpends(db[..i + 1], rctOnly, main)
  {
    assert db[..i + 1][..i] == db[..i];
  }

  method ScanDatabase(st0: Scan, n: nat, db: Database, rctOnly: bool, ghost before: seq<Spend>) returns (st: Scan)
    requires st0 == ScanAll(before)
    ensures st == ScanAll(before + DbSpends(db, rctOnly, n == 0))
  {
    st := st0;
    ghost var done := before;
    assert before + [] == before;
    for i := 0 to |db|
      invariant done == before + DbSpends(db[..i], rctOnly, n == 0)
      invariant st == ScanAll(done)
    {
      DbSpendsStep(before, db, i, rctOnly, n == 0);
      st := ScanTx(st, n, db[i], rctOnly, done);
      done := done + TxSpends(db[i].vin, rctOnly, n == 0);
    }
    assert db[..|db|] == db;
  }

  method ScanDatabases(dbs: seq<Database>, rctOnly: bool) returns (st: Scan)
    ensures st == ScanAll(AllSpends(dbs, rctOnly))
  {
    st := EMPTY;
    for n := 0 to |dbs|
      invariant st == ScanAll(AllSpends(dbs[..n], rctOnly))
    {
      assert dbs[..n + 1][..n] == dbs[..n];
      st := ScanDatabase(st, n, dbs[n], rctOnly, AllSpends(dbs[..n], rctOnly));
    }
    assert dbs[..|dbs|] == dbs;
  }
}
