/** What the usage tool reports: conservation of references, independence of the
    order of the transactions, and where its count of outputs goes wrong. */
module UsageFacts {
  import opened RingOffsets
  import opened TxInputs
  import opened Permutations
  import opened OutputUsage

  // ---- The histogram ------------------------------------------------------------------

  function Get(counts: map<nat, nat>, k: nat): (n: nat) {
    if k in counts then counts[k] else 0
  }

  /** Number of entries below `n`, and number of references they stand for. */
  function CountSum(counts: map<nat, nat>, n: nat): (r: nat) {
    if n == 0 then 0 else CountSum(counts, n - 1) + Get(counts, n - 1)
  }

  function WeightSum(counts: map<nat, nat>, n: nat): (r: nat) {
    if n == 0 then 0 else WeightSum(counts, n - 1) + (n - 1) * Get(counts, n - 1)
  }

  lemma {:induction false} Bump(counts: map<nat, nat>, k: nat, n: nat)
    ensures CountSum(counts[k := Get(counts, k) + 1], n) == CountSum(counts, n) + if k < n then 1 else 0
    ensures WeightSum(counts[k := Get(counts, k) + 1], n) == WeightSum(counts, n) + if k < n then k else 0
  {
    if n > 0 {
      Bump(counts, k, n - 1);
      if k == n - 1 {
        assert k * (Get(counts, k) + 1) == k * Get(counts, k) + k;
      }
    }
  }

  ghost predicate Below(counts: map<nat, nat>, n: nat) {
    forall k :: k in counts ==> k < n
  }

  lemma {:induction false} SumsEmpty(n: nat)
    ensures CountSum(map[], n) == 0 && WeightSum(map[], n) == 0
  {
    if n > 0 {
      SumsEmpty(n - 1);
    }
  }

  /** The outputs of `keys` that are referred to `k` times. */
  ghost function UsedTimes(outputs: map<Key, Usage>, keys: set<Key>, k: nat): (s: set<Key>) {
    set x | x in keys && x in outputs && |outputs[x].refs| == k
  }

  lemma UsedTimesMore(outputs: map<Key, Usage>, keys: set<Key>, x: Key, k: nat)
    requires x in outputs && x !in keys
    ensures |UsedTimes(outputs, keys + {x}, k)| ==
      |UsedTimes(outputs, keys, k)| + if |outputs[x].refs| == k then 1 else 0
  {
    if |outputs[x].refs| == k {
      assert UsedTimes(outputs, keys + {x}, k) == UsedTimes(outputs, keys, k) + {x};
    } else {
      assert UsedTimes(outputs, keys + {x}, k) == UsedTimes(outputs, keys, k);
    }
  }

  /** References whose target is in `keys`. */
  function RefersInto(es: seq<Event>, keys: set<Key>): (n: nat) {
    if es == [] then 0
    else RefersInto(es[..|es| - 1], keys) + (if es[|es| - 1].Refer? && es[|es| - 1].key in keys then 1 else 0)
  }

  lemma {:induction false} RefersIntoMore(es: seq<Event>, keys: set<Key>, x: Key)
    requires x !in keys
    ensures RefersInto(es, keys + {x}) == RefersInto(es, keys) + |RefsTo(es, x)|
  {
    if es != [] {
      RefersIntoMore(es[..|es| - 1], keys, x);
    }
  }

  lemma {:induction false} RefersIntoNone(es: seq<Event>)
    ensures RefersInto(es, {}) == 0
  {
    if es != [] {
      RefersIntoNone(es[..|es| - 1]);
    }
  }

  /** What `counts` says of the outputs `keys` walked so far. */
  ghost predicate Tallies(counts: map<nat, nat>, outputs: map<Key, Usage>, keys: set<Key>) {
    && (forall k: nat :: Get(counts, k) == |UsedTimes(outputs, keys, k)|)
    && forall k :: k in counts ==> counts[k] > 0
  }

  ghost predicate Sums(counts: map<nat, nat>, total: nat, refs: nat) {
    forall n: nat :: Below(counts, n) ==> CountSum(counts, n) == total && WeightSum(counts, n) == refs
  }

  lemma SumsMore(counts: map<nat, nat>, total: nat, refs: nat, k: nat)
    requires Sums(counts, total, refs)
    ensures Sums(counts[k := Get(counts, k) + 1], total + 1, refs + k)
  {
    var counts' := counts[k := Get(counts, k) + 1];
    forall n: nat | Below(counts', n) ensures CountSum(counts', n) == total + 1 && WeightSum(counts', n) == refs + k {
      assert k in counts';
      forall j | j in counts ensures j < n { assert j in counts'; }
      Bump(counts, k, n);
    }
  }

  lemma TalliesMore(counts: map<nat, nat>, outputs: map<Key, Usage>, keys: set<Key>, x: Key)
    requires Tallies(counts, outputs, keys) && x in outputs && x !in keys
    ensures Tallies(counts[|outputs[x].refs| := Get(counts, |outputs[x].refs|) + 1], outputs, keys + {x})
  {
    forall k: nat
      ensures Get(counts[|outputs[x].refs| := Get(counts, |outputs[x].refs|) + 1], k) ==
        |UsedTimes(outputs, keys + {x}, k)|
    {
      UsedTimesMore(outputs, keys, x, k);
    }
  }

  lemma NothingWalked(outputs: map<Key, Usage>, es: seq<Event>)
    ensures Tallies(map[], outputs, {})
    ensures Sums(map[], 0, RefersInto(es, {}))
  {
    RefersIntoNone(es);
    forall n: nat ensures CountSum(map[], n) == 0 && WeightSum(map[], n) == 0 {
      SumsEmpty(n);
    }
    assert forall k: nat :: UsedTimes(outputs, {}, k) == {};
  }

  /** The histogram loop, in whatever order the outputs are walked: each entry is
      the number of outputs used that often, the entries add up to the number of
      outputs, and weighted they add up to the number of references. */
  method Histogram(outputs: map<Key, Usage>, ghost es: seq<Event>) returns (counts: map<nat, nat>, total: nat)
    requires Describes(es, State(outputs, Fold(es).indices))
    ensures Tallies(counts, outputs, outputs.Keys)
    ensures total == |outputs|
    ensures Sums(counts, total, RefersInto(es, outputs.Keys))
  {
    hide Tallies, Sums, RefersInto, RefsTo, Fold, Known;
    counts, total := map[], 0;
    var left := outputs.Keys;
    ghost var done: set<Key> := {};
    NothingWalked(outputs, es);
    while left != {}
      invariant done + left == outputs.Keys && done !! left
      invariant total == |done|
      invariant Tallies(counts, outputs, done)
      invariant Sums(counts, total, RefersInto(es, done))
      decreases |left|
    {
      var x :| x in left;
      var k := |outputs[x].refs|;
      TalliesMore(counts, outputs, done, x);
      SumsMore(counts, total, RefersInto(es, done), k);
      RefersIntoMore(es, done, x);
      counts := counts[k := (if k in counts then counts[k] else 0) + 1];
      total := total + 1;
      done := done + {x};
      left := left - {x};
    }
    assert done == outputs.Keys;
  }

  // ---- Conservation ---------------------------------------------------------------------

  /** Ring positions of the inputs that have rings and are wanted. */
  function InputPositions(vin: seq<TxIn>, rctOnly: bool): (n: nat) {
    if vin == [] then 0
    else
      var txin := vin[|vin| - 1];
      InputPositions(vin[..|vin| - 1], rctOnly) +
      (if txin.ToKey? && (rctOnly ==> txin.amount == 0) then |txin.keyOffsets| else 0)
  }

  function Positions(txs: seq<Tx>, rctOnly: bool): (n: nat) {
    if txs == [] then 0 else Positions(txs[..|txs| - 1], rctOnly) + InputPositions(txs[|txs| - 1].vin, rctOnly)
  }

  function ReferCount(es: seq<Event>): (n: nat) {
    if es == [] then 0 else ReferCount(es[..|es| - 1]) + (if es[|es| - 1].Refer? then 1 else 0)
  }

  lemma {:induction false} ReferCountSplit(a: seq<Event>, b: seq<Event>)
    ensures ReferCount(a + b) == ReferCount(a) + ReferCount(b)
  {
    if b == [] {
      assert a + b == a;
    } else {
      assert (a + b)[..|a + b| - 1] == a + b[..|b| - 1];
      ReferCountSplit(a, b[..|b| - 1]);
    }
  }

  lemma {:induction false} ReferCountAll(es: seq<Event>)
    requires forall e :: e in es ==> e.Refer?
    ensures ReferCount(es) == |es|
  {
    if es != [] {
      ReferCountAll(es[..|es| - 1]);
    }
  }

  lemma {:induction false} CreatesDoNotRefer(vout: seq<U64>, coinbase: bool, height: U64, rctOnly: bool)
    ensures ReferCount(Creates(vout, coinbase, height, rctOnly)) == 0
  {
    if vout != [] {
      var n := |vout| - 1;
      CreatesDoNotRefer(vout[..n], coinbase, height, rctOnly);
      ReferCountSplit(Creates(vout[..n], coinbase, height, rctOnly), [Create(coinbase, height, vout[n])]);
      assert ReferCount([Create(coinbase, height, vout[n])]) == ReferCount([Create(coinbase, height, vout[n])][..0]);
      assert Creates(vout[..n], coinbase, height, rctOnly) + [] == Creates(vout[..n], coinbase, height, rctOnly);
    }
  }

  lemma {:induction false} RefersCount(vin: seq<TxIn>, coinbase: bool, height: U64, rctOnly: bool)
    ensures ReferCount(Refers(vin, coinbase, height, rctOnly)) == InputPositions(vin, rctOnly)
  {
    if vin != [] {
      var n := |vin| - 1;
      RefersCount(vin[..n], coinbase, height, rctOnly);
      if Considered(vin[n], rctOnly) {
        var ring := RingRefers(vin[n].amount, vin[n].keyOffsets, coinbase, height, |vin[n].keyOffsets|);
        ReferCountSplit(Refers(vin[..n], coinbase, height, rctOnly), ring);
        ReferCountAll(ring);
      } else {
        assert Refers(vin, coinbase, height, rctOnly) == Refers(vin[..n], coinbase, height, rctOnly);
      }
    }
  }

  lemma {:induction false} EventsCount(txs: seq<Tx>, rctOnly: bool)
    ensures ReferCount(Events(txs, rctOnly)) == Positions(txs, rctOnly)
  {
    if txs != [] {
      var n := |txs| - 1;
      var tx := txs[n];
      EventsCount(txs[..n], rctOnly);
      ReferCountSplit(Events(txs[..n], rctOnly), TxEvents(tx, rctOnly));
      ReferCountSplit(Creates(tx.vout, IsCoinbase(tx), tx.height, rctOnly),
                      Refers(tx.vin, IsCoinbase(tx), tx.height, rctOnly));
      CreatesDoNotRefer(tx.vout, IsCoinbase(tx), tx.height, rctOnly);
      RefersCount(tx.vin, IsCoinbase(tx), tx.height, rctOnly);
    }
  }

  lemma {:induction false} AllTargetsKnown(es: seq<Event>, keys: set<Key>)
    requires forall k :: RefsTo(es, k) != [] ==> k in keys
    ensures RefersInto(es, keys) == ReferCount(es)
  {
    if es != [] {
      var n := |es| - 1;
      forall k | RefsTo(es[..n], k) != [] ensures k in keys {
        assert RefsTo(es, k) != [];
      }
      AllTargetsKnown(es[..n], keys);
      if es[n].Refer? {
        assert RefsTo(es, es[n].key) != [];
      }
    }
  }

  /** The whole tool: the histogram conserves references. */
  method MeasureUsage(txs: seq<Tx>, rctOnly: bool) returns (st: State, counts: map<nat, nat>, total: nat)
    ensures st == Fold(Events(txs, rctOnly))
    ensures Tallies(counts, st.outputs, st.outputs.Keys)
    ensures total == |st.outputs|
    ensures Sums(counts, total, Positions(txs, rctOnly))
  {
    st := ScanTransactions(txs, rctOnly);
    ghost var es := Events(txs, rctOnly);
    FoldDescribes(es);
    counts, total := Histogram(st.outputs, es);
    AllTargetsKnown(es, st.outputs.Keys);
    EventsCount(txs, rctOnly);
  }

  // ---- Order independence -------------------------------------------------------------------

  lemma {:induction false} CreatedIsConcatMap(es: seq<Event>, amount: U64, f: Event -> seq<bool>)
    requires forall e :: f(e) == if e.Create? && e.amount == amount then [true] else []
    ensures |ConcatMap(f, es)| == Created(es, amount)
  {
    if es != [] {
      CreatedIsConcatMap(es[..|es| - 1], amount, f);
    }
  }

  lemma {:induction false} RefsToIsConcatMap(es: seq<Event>, key: Key, f: Event -> seq<Reference>)
    requires forall e :: f(e) == if e.Refer? && e.key == key then [e.ref] else []
    ensures ConcatMap(f, es) == RefsTo(es, key)
  {
    if es != [] {
      RefsToIsConcatMap(es[..|es| - 1], key, f);
    }
  }

  lemma {:induction false} EventsIsConcatMap(txs: seq<Tx>, rctOnly: bool, f: Tx -> seq<Event>)
    requires forall tx :: f(tx) == TxEvents(tx, rctOnly)
    ensures ConcatMap(f, txs) == Events(txs, rctOnly)
  {
    if txs != [] {
      EventsIsConcatMap(txs[..|txs| - 1], rctOnly, f);
    }
  }

  lemma EventsOfPermutation(txs: seq<Tx>, txs': seq<Tx>, rctOnly: bool)
    requires multiset(txs) == multiset(txs')
    ensures multiset(Events(txs, rctOnly)) == multiset(Events(txs', rctOnly))
  {
    var f := (tx: Tx) => TxEvents(tx, rctOnly);
    EventsIsConcatMap(txs, rctOnly, f);
    EventsIsConcatMap(txs', rctOnly, f);
    ConcatMapOfPermutation(f, txs, txs');
  }

  lemma CreatedOfPermutation(es: seq<Event>, es': seq<Event>, amount: U64)
    requires multiset(es) == multiset(es')
    ensures Created(es, amount) == Created(es', amount)
  {
    var f := (e: Event) => if e.Create? && e.amount == amount then [true] else [];
    CreatedIsConcatMap(es, amount, f);
    CreatedIsConcatMap(es', amount, f);
    ConcatMapOfPermutation(f, es, es');
    assert |multiset(ConcatMap(f, es))| == |multiset(ConcatMap(f, es'))|;
  }

  lemma RefsToOfPermutation(es: seq<Event>, es': seq<Event>, key: Key)
    requires multiset(es) == multiset(es')
    ensures multiset(RefsTo(es, key)) == multiset(RefsTo(es', key))
    ensures |RefsTo(es, key)| == |RefsTo(es', key)|
  {
    var f := (e: Event) => if e.Refer? && e.key == key then [e.ref] else [];
    RefsToIsConcatMap(es, key, f);
    RefsToIsConcatMap(es', key, f);
    ConcatMapOfPermutation(f, es, es');
    assert |multiset(RefsTo(es, key))| == |multiset(RefsTo(es', key))|;
  }

  /** In whatever order the transactions come, the same outputs are entered, each
      with the same references up to order, and so every entry of the histogram
      is the same. */
  lemma UsageOrderIndependent(txs: seq<Tx>, txs': seq<Tx>, rctOnly: bool)
    requires multiset(txs) == multiset(txs')
    ensures var o, o' := Fold(Events(txs, rctOnly)).outputs, Fold(Events(txs', rctOnly)).outputs;
      && o.Keys == o'.Keys
      && (forall k :: k in o ==> multiset(o[k].refs) == multiset(o'[k].refs))
      && forall n: nat :: UsedTimes(o, o.Keys, n) == UsedTimes(o', o'.Keys, n)
  {
    var es, es' := Events(txs, rctOnly), Events(txs', rctOnly);
    EventsOfPermutation(txs, txs', rctOnly);
    FoldDescribes(es);
    FoldDescribes(es');
    forall k ensures Known(es, k) <==> Known(es', k) {
      CreatedOfPermutation(es, es', k.amount);
      RefsToOfPermutation(es, es', k);
    }
    var o, o' := Fold(es).outputs, Fold(es').outputs;
    assert o.Keys == o'.Keys;
    forall k | k in o ensures multiset(o[k].refs) == multiset(o'[k].refs) && |o[k].refs| == |o'[k].refs| {
      RefsToOfPermutation(es, es', k);
    }
  }

  // ---- Where the keys go wrong -----------------------------------------------------------------

  /** What the database holds: outputs of an amount are numbered from 0. */
  ghost predicate Real(es: seq<Event>, key: Key) {
    key.index < Created(es, key.amount) || RefsTo(es, key) != []
  }

  /** Output 0 of an amount and the number one past its last output are referred to. */
  ghost predicate EndsReferred(es: seq<Event>, a: U64) {
    RefsTo(es, Key(a, 0)) != [] && RefsTo(es, Key(a, Created(es, a))) != []
  }

  lemma EndsDecide(es: seq<Event>, k: Key)
    ensures Created(es, k.amount) == 0 || EndsReferred(es, k.amount) ==> (Known(es, k) <==> Real(es, k))
  {
    hide Created, RefsTo;
    assert k == Key(k.amount, k.index);
  }

  lemma EndsNeeded(es: seq<Event>, a: U64)
    requires Created(es, a) > 0
    requires Known(es, Key(a, 0)) <==> Real(es, Key(a, 0))
    requires Known(es, Key(a, Created(es, a))) <==> Real(es, Key(a, Created(es, a)))
    ensures EndsReferred(es, a)
  {
    hide Created, RefsTo;
    assert Real(es, Key(a, 0)) && Known(es, Key(a, Created(es, a)));
  }

  /** The tool counts exactly the outputs that exist or are referred to when, for
      every amount with outputs, both output 0 and the number one past the last
      are referred to; otherwise it misses the one or invents the other. */
  lemma KeysAreRealIff(es: seq<Event>)
    ensures (forall k :: k in Fold(es).outputs <==> Real(es, k)) <==>
      forall a :: Created(es, a) > 0 ==> EndsReferred(es, a)
  {
    hide Fold, Created, RefsTo, Known, Real, EndsReferred;
    FoldDescribes(es);
    if forall k :: k in Fold(es).outputs <==> Real(es, k) {
      forall a | Created(es, a) > 0 ensures EndsReferred(es, a) {
        EndsNeeded(es, a);
      }
    }
    if forall a :: Created(es, a) > 0 ==> EndsReferred(es, a) {
      forall k ensures Known(es, k) <==> Real(es, k) {
        EndsDecide(es, k);
      }
    }
  }

  // ---- Recorded data ------------------------------------------------------------------------------

  /** Event `p` is the one whose data an output carries: its creation if it was
      created, and otherwise the first reference to it. */
  ghost predicate Source(es: seq<Event>, k: Key, p: nat)
    requires p < |es|
  {
    if IsCreated(es, k) then es[p].Create? && es[p].amount == k.amount && Created(es[..p], k.amount) + 1 == k.index
    else es[p].Refer? && es[p].key == k && RefsTo(es[..p], k) == []
  }

  /** Every entered output carries the coinbase flag and height of its source. */
  lemma {:induction false} InfoComesFromSource(es: seq<Event>, k: Key) returns (p: nat)
    requires k in Fold(es).outputs
    ensures p < |es| && Source(es, k, p)
    ensures Fold(es).outputs[k].coinbase == es[p].coinbase && Fold(es).outputs[k].height == es[p].height
  {
    var n := |es| - 1;
    var init, e := es[..n], es[n];
    FoldDescribes(es);
    FoldDescribes(init);
    assert Known(es, k);
    var now := e.Create? && e.amount == k.amount && Created(es, k.amount) == k.index;
    var first := e.Refer? && e.key == k && !Known(init, k);
    if now || first {
      p := n;
    } else {
      assert Known(init, k);
      p := InfoComesFromSource(init, k);
      assert init[..p] == es[..p] && init[p] == es[p];
    }
  }
}
