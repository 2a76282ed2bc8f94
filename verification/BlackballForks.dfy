/** Where the second pass goes wrong: a key image resolved by comparing forks. */
module BlackballForks {
  import opened SharedTypes
  import opened RingOffsets
  import opened RingClosure
  import opened BlackballScan
  import opened BlackballScanFacts
  import opened BlackballSecondPass
  import opened Blackball

  /** One key image, seen in the first database with offsets `a` and in a fork
      with offsets `b`. */
  function Fork(k: KeyImage, amount: U64, a: seq<U64>, b: seq<U64>): (spends: seq<Spend>) {
    [Spend(true, amount, a, k), Spend(false, amount, b, k)]
  }

  /** The two rings share exactly one output, `x`, and neither is a one-member ring. */
  ghost predicate ResolvedBy(a: seq<U64>, b: seq<U64>, x: U64) {
    && 1 != |a| < TWO32 && 1 != |b| < TWO32
    && a != b
    && Common(Absolute(a), Absolute(b)) == [x]
  }

  /** What the scan leaves: the fork's ring is stored and the common output marked. */
  ghost predicate Resolved(st: Scan, k: KeyImage, o: OutputData, b: seq<U64>) {
    && st.relativeRings == map[k := b]
    && st.spent == {o}
    && k in ImagesAt(st.outputs, o)
    && forall od, j :: j in ImagesAt(st.outputs, od) ==> j == k
  }

  /** The state after the first database. */
  ghost predicate Seen(st: Scan, sp: Spend) {
    && st.relativeRings == map[sp.image := sp.offsets]
    && st.spent == {}
    && (forall od :: sp.AbsoluteRing().Contains(od) ==> sp.image in ImagesAt(st.outputs, od))
    && forall od, j :: j in ImagesAt(st.outputs, od) ==> j == sp.image
  }

  lemma FirstScan(sp: Spend)
    requires sp.main && 1 != |sp.offsets| < TWO32
    ensures Seen(ScanSpend(EMPTY, sp), sp)
  {
    assert Found(EMPTY, sp) == {} && NewRing(EMPTY, sp) == sp.offsets;
    forall od
      ensures ImagesAt(ScanSpend(EMPTY, sp).outputs, od) == if sp.AbsoluteRing().Contains(od) then {sp.image} else {}
    {
      IndexRingAdds(map[], sp.amount, Absolute(sp.offsets), sp.image, od);
    }
  }

  lemma SecondScan(st: Scan, first: Spend, sp: Spend, x: U64)
    requires !sp.main && ResolvedBy(first.offsets, sp.offsets, x)
    requires Seen(st, first) && first.image == sp.image && first.amount == sp.amount
    ensures Resolved(ScanSpend(st, sp), sp.image, OutputData(sp.amount, x), sp.offsets)
  {
    hide Absolute, Common, ImagesAt;
    assert Shared(st, sp) == [x];
    ResolvedMarks(st, sp, x);
    CommonMember(Absolute(first.offsets), Absolute(sp.offsets), x);
    assert first.AbsoluteRing().Contains(OutputData(sp.amount, x));
  }

  lemma ResolvedMarks(st: Scan, sp: Spend, x: U64)
    requires |sp.offsets| < TWO32 && Differs(st, sp) && Shared(st, sp) == [x]
    ensures Found(st, sp) == {OutputData(sp.amount, x)} && NewRing(st, sp) == sp.offsets
  {
  }

  lemma CommonMember(r0: seq<U64>, r1: seq<U64>, x: U64)
    requires Common(r0, r1) == [x]
    ensures x in r0
  {
    assert x in Common(r0, r1);
  }

  lemma TwoScans(sp: Spend, sp': Spend)
    ensures ScanAll([sp, sp']) == ScanSpend(ScanSpend(EMPTY, sp), sp')
  {
    ScanMore([], sp);
    assert [] + [sp] == [sp];
    ScanMore([sp], sp');
    assert [sp] + [sp'] == [sp, sp'];
  }

  lemma ForkScan(k: KeyImage, amount: U64, a: seq<U64>, b: seq<U64>, x: U64)
    requires ResolvedBy(a, b, x)
    ensures Resolved(ScanAll(Fork(k, amount, a, b)), k, OutputData(amount, x), b)
  {
    var sp, sp' := Spend(true, amount, a, k), Spend(false, amount, b, k);
    TwoScans(sp, sp');
    FirstScan(sp);
    SecondScan(ScanSpend(EMPTY, sp), sp, sp', x);
  }

  /** Exactly one position of the ring holds something other than `x`. */
  ghost predicate OneOther(members: seq<U64>, x: U64) {
    exists p: nat :: p < |members| && members[p] != x && forall q: nat :: q < |members| && q != p ==> members[q] == x
  }

  lemma ForcedByOne(r: Ring, p: nat, o: OutputData)
    requires p < |r.members| && r.amount == o.amount
    requires r.Forced(p, {o}) && r.Out(p) != o
    ensures OneOther(r.members, o.index)
  {
    forall q: nat | q < |r.members| && q != p ensures r.members[q] == o.index {
      assert r.Out(q) in {o};
    }
    assert r.members[p] != o.index;
  }

  /** Nothing can be inferred from a lone ring with no such position. */
  lemma {:induction false} LoneRunIsEmpty(rel: RelativeRings, index: Index, k: KeyImage, o: OutputData,
                                          run: seq<Inference>)
    requires forall od, j :: j in ImagesAt(index, od) ==> j == k
    requires !OneOther(RingAt(rel, k, o.amount).members, o.index)
    requires Legit(rel, index, {o}, run)
    ensures run == []
  {
    if run != [] {
      LoneRunIsEmpty(rel, index, k, o, run[..|run| - 1]);
      var i := run[|run| - 1];
      assert Justified(rel, index, {o}, i);
      ForcedByOne(RingAt(rel, i.image, i.trigger.amount), i.p, o);
    }
  }

  lemma ForkHistory(k: KeyImage, amount: U64, a: seq<U64>, b: seq<U64>, x: U64)
    requires ResolvedBy(a, b, x)
    ensures History(Fork(k, amount, a, b), map[k := OutputData(amount, x)])
  {
    assert x in Common(Absolute(a), Absolute(b));
  }

  /** For the examples: a position to which the pass is led gets marked, which makes
      the result unsound if some history leaves its output unspent. */
  lemma DecoyMeansUnsound(spends: seq<Spend>, truth: map<KeyImage, OutputData>, spent: set<OutputData>,
                          run: seq<Inference>, k: KeyImage, a: U64, p: nat, j: nat, od: OutputData)
    requires History(spends, truth) && YieldsBy(ScanAll(spends), spent, run)
    requires Led(ScanAll(spends).relativeRings, ScanAll(spends).outputs, ScanAll(spends).spent, run, k, a, p, j, od)
    requires RingAt(ScanAll(spends).relativeRings, k, a).Out(p) !in Image(truth)
    ensures RingAt(ScanAll(spends).relativeRings, k, a).Out(p) in spent
    ensures !Sound(spends, spent)
  {
    var st := ScanAll(spends);
    assert !Enabled(st.relativeRings, st.outputs, st.spent, run, k, a, p);
  }

  /** Two rings of one key image with a single common output: whatever the order
      of the second pass, its result is sound exactly when the fork's ring does
      not have one position beside that output. With one such position, the
      decoy there is marked as spent. */
  lemma ForkSoundIff(k: KeyImage, amount: U64, a: seq<U64>, b: seq<U64>, x: U64, spent: set<OutputData>)
    requires ResolvedBy(a, b, x)
    requires Yields(ScanAll(Fork(k, amount, a, b)), spent)
    ensures Sound(Fork(k, amount, a, b), spent) <==> !OneOther(Absolute(b), x)
  {
    var o := OutputData(amount, x);
    ForkScan(k, amount, a, b, x);
    ForkResult(ScanAll(Fork(k, amount, a, b)), k, o, b, spent);
    ForkHistory(k, amount, a, b, x);
    ResolvedIsTrue(k, amount, a, b, x);
    SoundIffOnly(Fork(k, amount, a, b), k, o, spent);
  }

  lemma SoundIffOnly(spends: seq<Spend>, k: KeyImage, o: OutputData, spent: set<OutputData>)
    requires History(spends, map[k := o]) && Sound(spends, {o}) && o in spent
    ensures Sound(spends, spent) <==> spent == {o}
  {
    assert Image(map[k := o]) == {o};
  }

  lemma ForkResult(st: Scan, k: KeyImage, o: OutputData, b: seq<U64>, spent: set<OutputData>)
    requires Resolved(st, k, o, b) && Yields(st, spent)
    ensures spent == {o} <==> !OneOther(Absolute(b), o.index)
    ensures o in spent
  {
    var run :| YieldsBy(st, spent, run);
    RunGrows(st.relativeRings, st.outputs, st.spent, run);
    if OneOther(Absolute(b), o.index) {
      OtherIsMarked(st, k, o, b, spent, run);
    } else {
      assert RingAt(st.relativeRings, k, o.amount).members == Absolute(b);
      LoneRunIsEmpty(st.relativeRings, st.outputs, k, o, run);
    }
  }

  lemma OtherIsMarked(st: Scan, k: KeyImage, o: OutputData, b: seq<U64>, spent: set<OutputData>, run: seq<Inference>)
    requires Resolved(st, k, o, b) && OneOther(Absolute(b), o.index) && YieldsBy(st, spent, run)
    ensures spent != {o}
  {
    var r := RingAt(st.relativeRings, k, o.amount);
    assert r.members == Absolute(b);
    var p: nat :| p < |r.members| && r.members[p] != o.index
      && forall q: nat :: q < |r.members| && q != p ==> r.members[q] == o.index;
    assert run[..0] == [];
    assert forall q: nat :: q < |r.members| && q != p ==> r.Out(q) == o;
    assert Led(st.relativeRings, st.outputs, st.spent, run, k, o.amount, p, 0, o);
    assert !Enabled(st.relativeRings, st.outputs, st.spent, run, k, o.amount, p);
    assert r.Out(p) in spent && r.Out(p) != o;
  }

  lemma ResolvedIsTrue(k: KeyImage, amount: U64, a: seq<U64>, b: seq<U64>, x: U64)
    requires ResolvedBy(a, b, x)
    ensures Sound(Fork(k, amount, a, b), {OutputData(amount, x)})
  {
    var s := Fork(k, amount, a, b);
    forall truth: map<KeyImage, OutputData> | History(s, truth) ensures OutputData(amount, x) in Image(truth) {
      assert Shows(s[0], truth) && Shows(s[1], truth);
      assert truth[k].index in Common(Absolute(a), Absolute(b));
      assert truth[k] == OutputData(amount, x);
    }
  }

  /** The smallest instance: rings {1, 2} and {1, 3}. Output 1 is the true spend;
      output 3, which nobody spends, is marked in every execution. */
  lemma ForkExample(a: seq<U64>, b: seq<U64>, spent: set<OutputData>)
    requires a == [1, 1] && b == [1, 2]
    requires Yields(ScanAll(Fork(KeyImage(0), 0, a, b)), spent)
    ensures !Sound(Fork(KeyImage(0), 0, a, b), spent)
  {
    TwoRing(1, 1);
    TwoRing(1, 2);
    CommonOfTwo(1, 2, 3);
    assert OneOther(Absolute(b), 1) by { assert Absolute(b)[1] != 1; }
    ForkSoundIff(KeyImage(0), 0, a, b, 1, spent);
  }

  lemma TwoRing(x: U64, d: U64)
    requires x + d < TWO64
    ensures Absolute([x, d]) == [x, x + d]
  {
    assert [x, d][..1] == [x];
  }

  lemma CommonOfTwo(x: U64, y: U64, z: U64)
    requires x != y && y != z
    ensures Common([x, y], [x, z]) == [x]
  {
    assert [x, y][..1] == [x] && [x][..0] == [];
    assert Common([x], [x, z]) == [x];
  }

  // ---- A decoy isolated by another key image -------------------------------------------

  /** Key image 0 has the ring {1, 2} in the first database and {1, 3, 4} in a
      fork; key image 1 has the ring {3}. */
  function LaterDecoy(): (spends: seq<Spend>) {
    [Spend(true, 0, [1, 1], KeyImage(0)), Spend(true, 0, [3], KeyImage(1)), Spend(false, 0, [1, 2, 1], KeyImage(0))]
  }

  lemma ThreeRing(x: U64, d: U64, e: U64)
    requires x + d + e < TWO64
    ensures Absolute([x, d, e]) == [x, x + d, x + d + e]
  {
    TwoRing(x, d);
    assert [x, d, e][..2] == [x, d];
  }

  lemma ThreeScans(a: Spend, b: Spend, c: Spend)
    ensures ScanAll([a, b, c]) == ScanSpend(ScanAll([a, b]), c)
  {
    ScanMore([a, b], c);
    assert [a, b] + [c] == [a, b, c];
  }

  lemma LaterDecoyMain(a: Spend, b: Spend)
    requires a == Spend(true, 0, [1, 1], KeyImage(0)) && b == Spend(true, 0, [3], KeyImage(1))
    ensures ScanAll([a, b]).relativeRings == map[KeyImage(0) := [1, 1], KeyImage(1) := [3]]
    ensures ScanAll([a, b]).spent == {OutputData(0, 3)}
    ensures KeyImage(0) in ImagesAt(ScanAll([a, b]).outputs, OutputData(0, 1))
  {
    TwoScans(a, b);
    FirstScan(a);
    TwoRing(1, 1);
    var st := ScanSpend(EMPTY, a);
    assert a.AbsoluteRing().Contains(OutputData(0, 1)) by { assert [1, 2][0] == 1; }
    assert Found(st, b) == {OutputData(0, 3)} && NewRing(st, b) == [3];
    IndexRingAdds(st.outputs, 0, Absolute([3]), KeyImage(1), OutputData(0, 1));
  }

  lemma LaterDecoyScan(st: Scan)
    requires st == ScanAll(LaterDecoy())
    ensures st.relativeRings[KeyImage(0) := [1, 2, 1]] == st.relativeRings && KeyImage(0) in st.relativeRings
    ensures OutputData(0, 1) in st.spent && OutputData(0, 3) in st.spent
    ensures KeyImage(0) in ImagesAt(st.outputs, OutputData(0, 1))
  {
    hide ScanAll, Absolute, ImagesAt, ScanSpend;
    var a, b := Spend(true, 0, [1, 1], KeyImage(0)), Spend(true, 0, [3], KeyImage(1));
    var c := Spend(false, 0, [1, 2, 1], KeyImage(0));
    ThreeScans(a, b, c);
    LaterDecoyMain(a, b);
    LaterDecoyFork(ScanAll([a, b]), c);
  }

  lemma LaterDecoyFork(st: Scan, c: Spend)
    requires c == Spend(false, 0, [1, 2, 1], KeyImage(0))
    requires KeyImage(0) in st.relativeRings && st.relativeRings[KeyImage(0)] == [1, 1]
    ensures ScanSpend(st, c).relativeRings == st.relativeRings[KeyImage(0) := [1, 2, 1]]
    ensures ScanSpend(st, c).spent == st.spent + {OutputData(0, 1)}
    ensures ScanSpend(st, c).outputs == st.outputs
  {
    hide Absolute, Common, Found, NewRing;
    TwoRing(1, 1);
    ThreeRing(1, 2, 1);
    CommonOne([1, 2], [1, 3, 4]);
    assert Shared(st, c) == [1];
    ResolvedMarks(st, c, 1);
  }

  lemma CommonOne(r0: seq<U64>, r1: seq<U64>)
    requires |r0| == 2 && r0[0] in r1 && r0[1] !in r1
    ensures Common(r0, r1) == [r0[0]]
  {
    assert r0[..1] == [r0[0]] && r0[..1][..0] == [];
    assert Common(r0[..1], r1) == [r0[0]];
  }

  lemma LaterDecoyLed(st: Scan, run: seq<Inference>)
    requires st == ScanAll(LaterDecoy())
    ensures Led(st.relativeRings, st.outputs, st.spent, run, KeyImage(0), 0, 2, 0, OutputData(0, 1))
    ensures RingAt(st.relativeRings, KeyImage(0), 0).Out(2) == OutputData(0, 4)
  {
    LaterDecoyScan(st);
    hide ScanAll, LaterDecoy, ImagesAt;
    ThreeRing(1, 2, 1);
    var r := RingAt(st.relativeRings, KeyImage(0), 0);
    assert st.relativeRings[KeyImage(0)] == [1, 2, 1];
    assert r.members == [1, 3, 4];
    assert run[..0] == [];
    assert r.Forced(2, st.spent) by { assert r.Out(0) in st.spent && r.Out(1) in st.spent; }
  }

  lemma LaterDecoyHistory(truth: map<KeyImage, OutputData>)
    requires truth == map[KeyImage(0) := OutputData(0, 1), KeyImage(1) := OutputData(0, 3)]
    ensures History(LaterDecoy(), truth) && OutputData(0, 4) !in Image(truth)
  {
    TwoRing(1, 1);
    ThreeRing(1, 2, 1);
    assert [1, 2][0] == 1 && [1, 3, 4][0] == 1 && Absolute([3])[0] == 3;
    forall sp | sp in LaterDecoy() ensures Shows(sp, truth) {
    }
  }

  /** Output 4 is marked in every execution, though key image 0 spends output 1
      and key image 1 spends output 3. */
  lemma LaterDecoyExample(spent: set<OutputData>)
    requires Yields(ScanAll(LaterDecoy()), spent)
    ensures OutputData(0, 4) in spent && !Sound(LaterDecoy(), spent)
  {
    hide ScanAll, LaterDecoy, Led, YieldsBy, History, Sound;
    var st := ScanAll(LaterDecoy());
    var run :| YieldsBy(st, spent, run);
    var truth := map[KeyImage(0) := OutputData(0, 1), KeyImage(1) := OutputData(0, 3)];
    LaterDecoyLed(st, run);
    LaterDecoyHistory(truth);
    DecoyMeansUnsound(LaterDecoy(), truth, spent, run, KeyImage(0), 0, 2, 0, OutputData(0, 1));
  }
}
