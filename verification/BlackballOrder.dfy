/** When the order in which the hash sets are walked matters to the second pass. */
module BlackballOrder {
  import opened SharedTypes
  import opened Lists
  import opened RingOffsets
  import opened RingClosure
  import opened BlackballScan
  import opened BlackballScanFacts
  import opened BlackballSecondPass
  import opened Blackball
  import opened Permutations

  // ---- Settled results -------------------------------------------------------------------

  /** Looking once more at every ring to which a marked output leads finds nothing. */
  ghost predicate Settled(st: Scan, s: set<OutputData>) {
    forall od, k :: od in s && k in ImagesAt(st.outputs, od) ==> Shown(st.relativeRings, od, k, s) == {}
  }

  lemma {:induction false} RunWithinSettled(st: Scan, s: set<OutputData>, run: seq<Inference>)
    requires Settled(st, s) && st.spent <= s && Legit(st.relativeRings, st.outputs, st.spent, run)
    ensures After(st.spent, run) <= s
  {
    if run != [] {
      var n := |run| - 1;
      var i := run[n];
      RunWithinSettled(st, s, run[..n]);
      NothingShown(st.relativeRings, i.trigger, i.image, s, i.p);
    }
  }

  /** A run can go on until nothing is owed any more. */
  lemma {:induction false} RunGoesOn(st: Scan, run: seq<Inference>) returns (spent: set<OutputData>)
    requires Legit(st.relativeRings, st.outputs, st.spent, run)
    ensures Yields(st, spent) && After(st.spent, run) <= spent
    decreases |Universe(st.relativeRings, st.spent)| - |run|
  {
    var rel, index, s := st.relativeRings, st.outputs, After(st.spent, run);
    if k, a, p :| Enabled(rel, index, st.spent, run, k, a, p) {
      var j: nat, od :| Led(rel, index, st.spent, run, k, a, p, j, od);
      AfterGrows(st.spent, run, j);
      LedIsMarked(rel, index, st.spent, run, k, a, p, j, od);
      var i := Inference(od, k, p, RingAt(rel, k, a).Out(p));
      assert Justified(rel, index, s, i);
      RunMore(rel, index, st.spent, run, i);
      RunLength(rel, index, st.spent, run + [i]);
      spent := RunGoesOn(st, run + [i]);
    } else {
      spent := s;
      assert YieldsBy(st, spent, run);
    }
  }

  lemma LedIsMarked(rel: RelativeRings, index: Index, s0: set<OutputData>, run: seq<Inference>,
                    k: KeyImage, a: U64, p: nat, j: nat, od: OutputData)
    requires Led(rel, index, s0, run, k, a, p, j, od)
    ensures od in After(s0, run[..j])
  {
    if j > 0 {
      assert run[..j][..j - 1] == run[..j - 1];
    }
  }

  /** Any databases: a result contains all others exactly when it is settled. */
  lemma LargestIffSettled(st: Scan, spent: set<OutputData>)
    requires Yields(st, spent)
    ensures (forall spent' :: Yields(st, spent') ==> spent' <= spent) <==> Settled(st, spent)
  {
    var run :| YieldsBy(st, spent, run);
    RunGrows(st.relativeRings, st.outputs, st.spent, run);
    if Settled(st, spent) {
      forall spent' | Yields(st, spent') ensures spent' <= spent {
        var run' :| YieldsBy(st, spent', run');
        RunWithinSettled(st, spent, run');
      }
    } else {
      var od, k :| od in spent && k in ImagesAt(st.outputs, od) && Shown(st.relativeRings, od, k, spent) != {};
      var larger := ShownGoesOn(st, spent, run, od, k);
    }
  }

  lemma ShownGoesOn(st: Scan, spent: set<OutputData>, run: seq<Inference>, od: OutputData, k: KeyImage)
    returns (larger: set<OutputData>)
    requires YieldsBy(st, spent, run) && od in spent && k in ImagesAt(st.outputs, od)
    requires Shown(st.relativeRings, od, k, spent) != {}
    ensures Yields(st, larger) && !(larger <= spent)
  {
    var r := RingAt(st.relativeRings, k, od.amount);
    var o :| o in Shown(st.relativeRings, od, k, spent);
    var p: nat :| p < |r.members| && OnlyUnknown(r, spent, p) && r.Out(p) == o;
    var i := Inference(od, k, p, o);
    RunMore(st.relativeRings, st.outputs, st.spent, run, i);
    larger := RunGoesOn(st, run + [i]);
    assert o in larger && o !in spent;
  }

  // ---- Indexed rings -----------------------------------------------------------------------

  /** Whenever an output of `s` leads to a ring, all members of the ring that are
      in `s` do. */
  ghost predicate IndexedWithin(st: Scan, s: set<OutputData>) {
    forall od, k, q: nat :: od in s && k in ImagesAt(st.outputs, od) ==>
      var r := RingAt(st.relativeRings, k, od.amount);
      q < |r.members| && r.Out(q) in s ==> k in ImagesAt(st.outputs, r.Out(q))
  }

  lemma IndexedIsSettled(st: Scan, spent: set<OutputData>)
    requires Yields(st, spent) && IndexedWithin(st, spent)
    ensures Settled(st, spent)
  {
    hide Exhausted;
    var run :| YieldsBy(st, spent, run);
    forall od, k | od in spent && k in ImagesAt(st.outputs, od) ensures Shown(st.relativeRings, od, k, spent) == {} {
      var r := RingAt(st.relativeRings, k, od.amount);
      if p: nat :| OnlyUnknown(r, spent, p) {
        AllIndexedIsMarked(st.relativeRings, st.outputs, st.spent, run, k, p, od);
      }
    }
  }

  /** Any databases: if the rings are indexed within one result, every other
      result is the same. */
  lemma ResultsAgree(st: Scan, spent: set<OutputData>, spent': set<OutputData>)
    requires Yields(st, spent) && Yields(st, spent') && IndexedWithin(st, spent)
    ensures spent == spent'
  {
    hide Yields;
    IndexedIsSettled(st, spent);
    LargestIffSettled(st, spent);
    assert IndexedWithin(st, spent');
    IndexedIsSettled(st, spent');
    LargestIffSettled(st, spent');
  }

  /** One database with unique key images is indexed within any set. */
  lemma SingleIsIndexed(spends: seq<Spend>, s: set<OutputData>)
    requires UniqueImages(spends)
    ensures IndexedWithin(ScanAll(spends), s)
  {
    var st, rings := ScanAll(spends), RingsOf(spends);
    SingleScan(spends);
    hide ScanAll, RingsOf;
    forall od, k, q: nat | k in ImagesAt(st.outputs, od) && q < |RingAt(st.relativeRings, k, od.amount).members|
      ensures k in ImagesAt(st.outputs, RingAt(st.relativeRings, k, od.amount).Out(q))
    {
      assert RingAt(st.relativeRings, k, od.amount) == rings[k];
      assert rings[k].Contains(rings[k].Out(q));
    }
  }

  // ---- An instance where it matters ----------------------------------------------------

  const K1 := KeyImage(1)
  const K2 := KeyImage(2)
  const K3 := KeyImage(3)
  const K4 := KeyImage(4)

  /** The first database: the rings {3}, {10}, {3, 7} and {10, 13, 30}. */
  function MainSpends(): (spends: seq<Spend>) {
    [Spend(true, 0, [3], K1), Spend(true, 0, [10], K2), Spend(true, 0, [3, 4], K3), Spend(true, 0, [10, 3, 17], K4)]
  }

  /** The last of these again in a fork, with the ring {10, 13, 20}. */
  function ForkSpend(): (sp: Spend) {
    Spend(false, 0, [10, 3, 7], K4)
  }

  function MainRings(): (rings: Rings) {
    map[K1 := Ring(0, [3]), K2 := Ring(0, [10]), K3 := Ring(0, [3, 7]), K4 := Ring(0, [10, 13, 30])]
  }

  lemma Sums()
    ensures Absolute([3]) == [3] && Absolute([10]) == [10] && Absolute([3, 4]) == [3, 7]
    ensures Absolute([10, 3, 17]) == [10, 13, 30] && Absolute([10, 3, 7]) == [10, 13, 20]
  {
    assert [3, 4][..1] == [3] && [10, 3][..1] == [10];
    assert Absolute([10, 3]) == [10, 13];
    assert [10, 3, 17][..2] == [10, 3] && [10, 3, 7][..2] == [10, 3];
  }

  lemma MainRingsOf()
    ensures UniqueImages(MainSpends()) && RingsOf(MainSpends()) == MainRings()
  {
    var s := MainSpends();
    Sums();
    assert s[..3] == [s[0], s[1], s[2]] && s[..3][..2] == [s[0], s[1]];
    assert s[..3][..2][..1] == [s[0]] && s[..3][..2][..1][..0] == [];
    assert RingsOf([s[0]]) == map[K1 := Ring(0, [3])];
    assert RingsOf([s[0], s[1]]) == map[K1 := Ring(0, [3]), K2 := Ring(0, [10])];
    assert RingsOf(s[..3]) == map[K1 := Ring(0, [3]), K2 := Ring(0, [10]), K3 := Ring(0, [3, 7])];
  }

  /** What the scan leaves: the merged ring holds 3 and 7, to which nothing leads. */
  ghost predicate Merged(st: Scan) {
    && st.spent == {OutputData(0, 3), OutputData(0, 10)}
    && Indexed(MainRings(), st.outputs)
    && st.relativeRings.Keys == {K1, K2, K3, K4}
    && Absolute(st.relativeRings[K1]) == [3] && Absolute(st.relativeRings[K2]) == [10]
    && Absolute(st.relativeRings[K3]) == [3, 7]
    && multiset(Absolute(st.relativeRings[K4])) == multiset([10, 3, 7, 10, 13])
  }

  lemma CommonTwo(r1: seq<U64>)
    requires 10 in r1 && 13 in r1 && 30 !in r1
    ensures Common([10, 13, 30], r1) == [10, 13]
  {
    assert [10, 13, 30][..2] == [10, 13] && [10, 13][..1] == [10] && [10][..0] == [];
    assert Common([10], r1) == [10];
    assert Common([10, 13], r1) == [10, 13];
  }

  lemma OneRingsOfMain(o: OutputData)
    ensures OneRingOutput(MainRings(), o) <==> o in {OutputData(0, 3), OutputData(0, 10)}
  {
    assert MainRings()[K1] == Ring(0, [3]) && MainRings()[K2] == Ring(0, [10]);
    assert |MainRings()[K3].members| == 2 && |MainRings()[K4].members| == 3;
  }

  lemma MergedRing(st: Scan, sp: Spend)
    requires sp == ForkSpend() && K4 in st.relativeRings && Absolute(st.relativeRings[K4]) == [10, 13, 30]
    ensures Found(st, sp) == {} && !Resolves(st, sp)
    ensures multiset(Absolute(NewRing(st, sp))) == multiset([10, 3, 7, 10, 13])
  {
    hide Relative;
    Sums();
    CommonTwo([10, 13, 20]);
    assert Shared(st, sp) == [10, 13];
    var mixed := [10, 3, 7] + [10, 13];
    assert mixed == [10, 3, 7, 10, 13];
    assert NewRing(st, sp) == Relative(mixed);
    RelativeThenAbsolute(mixed);
  }

  lemma MergeStep(st: Scan, sp: Spend)
    requires sp == ForkSpend() && Stores(st.relativeRings, MainRings()) && Indexed(MainRings(), st.outputs)
    requires st.spent == {OutputData(0, 3), OutputData(0, 10)}
    ensures Merged(ScanSpend(st, sp)) && !Resolves(st, sp)
  {
    hide Absolute, Indexed, NewRing, Found, Resolves, IndexRing;
    assert MainRings()[K4].members == [10, 13, 30];
    MergedRing(st, sp);
    assert MainRings()[K1].members == [3] && MainRings()[K2].members == [10] && MainRings()[K3].members == [3, 7];
    assert MainRings().Keys == {K1, K2, K3, K4};
  }

  lemma MergedScan()
    ensures Merged(ScanAll(MainSpends() + [ForkSpend()]))
    ensures !Resolves(ScanAll(MainSpends()), ForkSpend())
  {
    var st, sp := ScanAll(MainSpends()), ForkSpend();
    hide ScanAll, MainSpends, RingsOf, MainRings, Merged, Resolves;
    MainRingsOf();
    SingleScan(MainSpends());
    ScanMore(MainSpends(), sp);
    forall o ensures o in st.spent <==> o in {OutputData(0, 3), OutputData(0, 10)} {
      OneRingsOfMain(o);
    }
    MergeStep(st, sp);
  }

  // ---- Its two executions --------------------------------------------------------------------

  const OUT3 := OutputData(0, 3)
  const OUT7 := OutputData(0, 7)
  const OUT10 := OutputData(0, 10)
  const OUT13 := OutputData(0, 13)

  lemma KnownShowsNothing(rel: RelativeRings, od: OutputData, ki: KeyImage, s: set<OutputData>)
    requires RingAt(rel, ki, od.amount).Inside(s)
    ensures Shown(rel, od, ki, s) == {}
  {
  }

  lemma TwoUnknownShowNothing(rel: RelativeRings, od: OutputData, ki: KeyImage, s: set<OutputData>, p: nat, q: nat)
    requires p < |RingAt(rel, ki, od.amount).members| && q < |RingAt(rel, ki, od.amount).members| && p != q
    requires RingAt(rel, ki, od.amount).Out(p) !in s && RingAt(rel, ki, od.amount).Out(q) !in s
    ensures Shown(rel, od, ki, s) == {}
  {
  }

  /** The positions of 7 and 13 in the merged ring; all others hold 3 or 10. */
  lemma MergedPositions(m: seq<U64>) returns (p7: nat, p13: nat)
    requires multiset(m) == multiset([10, 3, 7, 10, 13])
    ensures p7 < |m| && m[p7] == 7 && p13 < |m| && m[p13] == 13
    ensures forall q: nat :: q < |m| && q != p7 && q != p13 ==> m[q] == 3 || m[q] == 10
  {
    assert 13 in multiset(m) && 7 in multiset(m);
    p7 :| p7 < |m| && m[p7] == 7;
    p13 :| p13 < |m| && m[p13] == 13;
    forall q: nat | q < |m| && q != p7 && q != p13 ensures m[q] == 3 || m[q] == 10 {
      assert m[q] in multiset(m);
      assert m[q] in [10, 3, 7, 10, 13];
      if m[q] == 7 {
        CountTwice(m, if p7 < q then p7 else q, if p7 < q then q else p7);
      }
      if m[q] == 13 {
        CountTwice(m, if p13 < q then p13 else q, if p13 < q then q else p13);
      }
    }
  }

  /** The merged ring shows 13 when 7 is known, and nothing before. */
  lemma MergedShows(rel: RelativeRings, od: OutputData, s: set<OutputData>)
    requires K4 in rel && multiset(Absolute(rel[K4])) == multiset([10, 3, 7, 10, 13])
    requires od.amount == 0 && {OUT3, OUT10} <= s && (OUT13 in s ==> OUT7 in s)
    ensures Shown(rel, od, K4, s) == if OUT7 in s then {OUT13} - s else {}
  {
    hide Absolute, Shown;
    var r := RingAt(rel, K4, 0);
    var p7, p13 := MergedPositions(r.members);
    assert forall q: nat :: q < |r.members| && q != p7 && q != p13 ==> r.Out(q) in s;
    if OUT7 !in s {
      TwoUnknownShowNothing(rel, od, K4, s, p7, p13);
    } else if OUT13 in s {
      KnownShowsNothing(rel, od, K4, s);
    } else {
      ShownAt(rel, od, K4, s, p13);
    }
  }

  /** The ring {3, 7} shows 7 as long as it is not known. */
  lemma PairShows(rel: RelativeRings, od: OutputData, s: set<OutputData>)
    requires K3 in rel && Absolute(rel[K3]) == [3, 7] && od.amount == 0 && OUT3 in s
    ensures Shown(rel, od, K3, s) == {OUT7} - s
  {
    hide Absolute, Shown;
    var r := RingAt(rel, K3, 0);
    assert r.members == [3, 7] && r.Out(0) == OUT3 && r.Out(1) == OUT7;
    if OUT7 in s {
      KnownShowsNothing(rel, od, K3, s);
    } else {
      ShownAt(rel, od, K3, s, 1);
    }
  }

  /** A ring of one marked output shows nothing. */
  lemma OneRingShowsNothing(rel: RelativeRings, od: OutputData, k: KeyImage, x: U64, s: set<OutputData>)
    requires k in rel && Absolute(rel[k]) == [x] && od.amount == 0 && OutputData(0, x) in s
    ensures Shown(rel, od, k, s) == {}
  {
    hide Absolute, Shown;
    assert RingAt(rel, k, 0).members == [x];
    KnownShowsNothing(rel, od, k, s);
  }

  lemma OneVisited(rel: RelativeRings, od: OutputData, k: KeyImage, g: Progress)
    ensures Visited(rel, od, [k], g) == g.Mark(Shown(rel, od, k, g.spent))
  {
    VisitedMore(rel, od, [], k, g);
    assert [] + [k] == [k];
  }

  lemma TwoVisited(rel: RelativeRings, od: OutputData, j: KeyImage, k: KeyImage, g: Progress)
    ensures var h := g.Mark(Shown(rel, od, j, g.spent));
      Visited(rel, od, [j, k], g) == h.Mark(Shown(rel, od, k, h.spent))
  {
    OneVisited(rel, od, j, g);
    VisitedMore(rel, od, [j], k, g);
    assert [j] + [k] == [j, k];
  }

  // The four visits.
  const V3 := Visit(OUT3, [K1, K3])
  const V7 := Visit(OUT7, [K3])
  const V10 := Visit(OUT10, [K2, K4])
  const V13 := Visit(OUT13, [K4])

  /** What each of them does, on any progress that has 3 and 10, and 13 only with 7. */
  lemma VisitsDo(st: Scan, g: Progress)
    requires Merged(st) && {OUT3, OUT10} <= g.spent && (OUT13 in g.spent ==> OUT7 in g.spent)
    ensures Visited(st.relativeRings, OUT3, V3.images, g) == g.Mark({OUT7} - g.spent)
    ensures Visited(st.relativeRings, OUT7, V7.images, g) == g.Mark({OUT7} - g.spent)
    ensures Visited(st.relativeRings, OUT10, V10.images, g) == g.Mark(if OUT7 in g.spent then {OUT13} - g.spent else {})
    ensures Visited(st.relativeRings, OUT13, V13.images, g) == g.Mark(if OUT7 in g.spent then {OUT13} - g.spent else {})
  {
    hide Shown, Visited, Indexed, Absolute;
    var rel := st.relativeRings;
    assert g.Mark({}) == g;
    OneRingShowsNothing(rel, OUT3, K1, 3, g.spent);
    PairShows(rel, OUT3, g.spent);
    TwoVisited(rel, OUT3, K1, K3, g);
    PairShows(rel, OUT7, g.spent);
    OneVisited(rel, OUT7, K3, g);
    OneRingShowsNothing(rel, OUT10, K2, 10, g.spent);
    MergedShows(rel, OUT10, g.spent);
    TwoVisited(rel, OUT10, K2, K4, g);
    MergedShows(rel, OUT13, g.spent);
    OneVisited(rel, OUT13, K4, g);
  }

  lemma LeadsTo(index: Index, x: U64, k: KeyImage)
    requires Indexed(MainRings(), index)
    ensures k in ImagesAt(index, OutputData(0, x)) <==>
      (k == K1 && x == 3) || (k == K2 && x == 10) || (k == K3 && x in [3, 7]) || (k == K4 && x in [10, 13, 30])
  {
    hide ImagesAt;
    assert k in ImagesAt(index, OutputData(0, x)) <==> k in MainRings() && MainRings()[k].Contains(OutputData(0, x));
  }

  /** They examine just the key images listed. */
  lemma VisitsListed(st: Scan, v: Visit)
    requires Merged(st) && v in {V3, V7, V10, V13}
    ensures Enumerates(v.images, ImagesAt(st.outputs, v.od))
  {
    hide ImagesAt, Absolute;
    assert v.od == OutputData(0, v.od.index);
    forall k ensures k in ImagesAt(st.outputs, v.od) <==> k in Elements(v.images) {
      LeadsTo(st.outputs, v.od.index, k);
    }
  }

  lemma WalkOfTwo(st: Scan, v: Visit, w: Visit)
    requires Merged(st) && v in {V3, V7, V10, V13} && w in {V3, V7, V10, V13} && v.od != w.od
    ensures Walk(st.outputs, [v, w], {v.od, w.od})
  {
    hide ImagesAt, Absolute, Indexed;
    VisitsListed(st, v);
    VisitsListed(st, w);
    assert Outs([v, w]) == [v.od, w.od];
  }

  lemma WalkOfOne(st: Scan, v: Visit)
    requires Merged(st) && v in {V3, V7, V10, V13}
    ensures Walk(st.outputs, [v], {v.od})
  {
    VisitsListed(st, v);
    assert Outs([v]) == [v.od];
  }

  lemma TwoHandled(rel: RelativeRings, v: Visit, w: Visit, g: Progress)
    ensures Handled(rel, [v], g) == Visited(rel, v.od, v.images, g)
    ensures Handled(rel, [v, w], g) == Visited(rel, w.od, w.images, Visited(rel, v.od, v.images, g))
  {
    hide Visited;
    assert [v, w][..1] == [v] && [v][..0] == [];
    assert Handled(rel, [v], g) == Visited(rel, v.od, v.images, g);
  }

  /** Two turns that walk through the right sets and end with nothing found. */
  lemma TwoTurns(rel: RelativeRings, index: Index, s0: set<OutputData>, g: Progress, spent: set<OutputData>,
                 a: seq<Visit>, b: seq<Visit>)
    requires s0 != {} && Walk(index, a, s0) && Handled(rel, a, Progress(s0, {})) == g
    requires g.newlySpent != {} && Walk(index, b, g.newlySpent)
    requires Handled(rel, b, Progress(g.spent, {})) == Progress(spent, {})
    ensures Executes(rel, index, s0, spent, [a, b])
  {
    hide Handled, Walk;
    var start := Progress(s0, s0);
    assert [a, b][..1] == [a] && [a][..0] == [];
    assert Passed(rel, [], start) == start && Turns(rel, index, [], start);
    assert Passed(rel, [a], start) == g && Turns(rel, index, [a], start);
  }

  /** Handling 3 before 10: the ring {3, 7} shows 7, and then the merged ring 13. */
  lemma LongExecution(st: Scan)
    requires Merged(st)
    ensures ExecutesOn(st, {OUT3, OUT10, OUT7, OUT13}, [[V3, V10], [V7, V13]])
  {
    hide Visited, Handled, Walk, Indexed, Absolute, Executes;
    var rel, all := st.relativeRings, {OUT3, OUT10, OUT7, OUT13};
    var g0 := Progress(st.spent, {});
    var g1 := Progress({OUT3, OUT10, OUT7}, {OUT7});
    var g2, h := Progress(all, {OUT7, OUT13}), Progress(all, {});
    VisitsDo(st, g0);
    assert g0.Mark({OUT7} - g0.spent) == g1;
    VisitsDo(st, g1);
    assert g1.Mark({OUT13} - g1.spent) == g2;
    TwoHandled(rel, V3, V10, g0);
    VisitsDo(st, h);
    assert h.Mark({OUT7} - h.spent) == h && h.Mark({OUT13} - h.spent) == h;
    TwoHandled(rel, V7, V13, h);
    WalkOfTwo(st, V3, V10);
    WalkOfTwo(st, V7, V13);
    TwoTurns(rel, st.outputs, st.spent, g2, all, [V3, V10], [V7, V13]);
  }

  /** Handling 10 before 3: the merged ring shows nothing yet, and is not examined
      again, since neither 3 nor 7 leads to it. */
  lemma ShortExecution(st: Scan)
    requires Merged(st)
    ensures ExecutesOn(st, {OUT3, OUT10, OUT7}, [[V10, V3], [V7]])
  {
    hide Visited, Handled, Walk, Indexed, Absolute, Executes;
    var rel, some := st.relativeRings, {OUT3, OUT10, OUT7};
    var g0, h := Progress(st.spent, {}), Progress(some, {});
    var g1 := Progress(some, {OUT7});
    VisitsDo(st, g0);
    assert g0.Mark({}) == g0 && g0.Mark({OUT7} - g0.spent) == g1;
    TwoHandled(rel, V10, V3, g0);
    VisitsDo(st, h);
    assert h.Mark({OUT7} - h.spent) == h;
    TwoHandled(rel, V7, V7, h);
    WalkOfTwo(st, V10, V3);
    WalkOfOne(st, V7);
    assert {OUT10, OUT3} == st.spent;
    TwoTurns(rel, st.outputs, st.spent, g1, some, [V10, V3], [V7]);
  }

  lemma MergedExecutions(st: Scan)
    requires Merged(st)
    ensures ExecutesOn(st, {OUT3, OUT10, OUT7, OUT13}, [[V3, V10], [V7, V13]])
    ensures ExecutesOn(st, {OUT3, OUT10, OUT7}, [[V10, V3], [V7]])
    ensures !Settled(st, {OUT3, OUT10, OUT7})
  {
    hide Merged, ExecutesOn, Settled, YieldsBy;
    LongExecution(st);
    ShortExecution(st);
    var long := ExecutionYields(st, {OUT3, OUT10, OUT7, OUT13}, [[V3, V10], [V7, V13]]);
    var short := ExecutionYields(st, {OUT3, OUT10, OUT7}, [[V10, V3], [V7]]);
    YieldsAnother(st, {OUT3, OUT10, OUT7}, short, {OUT3, OUT10, OUT7, OUT13}, long);
  }

  lemma MergedResolvesNothing()
    ensures ResolvedImages(MainSpends() + [ForkSpend()]) == {}
  {
    hide MainSpends, ForkSpend, RingsOf, MainRings, Resolves, ScanAll;
    var spends := MainSpends() + [ForkSpend()];
    assert spends[..|MainSpends()|] == MainSpends();
    MergedScan();
    MainRingsOf();
    SingleResolvesNothing(MainSpends());
  }

  /** No key image is resolved, and yet output 13 is found when output 3 is handled
      before output 10, and missed when it is handled after it. */
  lemma OrderMatters()
    ensures ResolvedImages(MainSpends() + [ForkSpend()]) == {}
    ensures var st := ScanAll(MainSpends() + [ForkSpend()]);
      && ExecutesOn(st, {OUT3, OUT10, OUT7, OUT13}, [[V3, V10], [V7, V13]])
      && ExecutesOn(st, {OUT3, OUT10, OUT7}, [[V10, V3], [V7]])
      && !Settled(st, {OUT3, OUT10, OUT7})
  {
    hide MainSpends, ForkSpend, ScanAll, ResolvedImages, Merged, ExecutesOn, Settled;
    MergedResolvesNothing();
    MergedScan();
    MergedExecutions(ScanAll(MainSpends() + [ForkSpend()]));
  }

  lemma YieldsAnother(st: Scan, spent: set<OutputData>, run: seq<Inference>, other: set<OutputData>,
                      run': seq<Inference>)
    requires YieldsBy(st, spent, run) && YieldsBy(st, other, run') && !(other <= spent)
    ensures !Settled(st, spent)
  {
    hide YieldsBy, Settled;
    assert Yields(st, spent) && Yields(st, other);
    LargestIffSettled(st, spent);
  }

  lemma {:induction false} SingleResolvesNothing(spends: seq<Spend>)
    requires UniqueImages(spends)
    ensures ResolvedImages(spends) == {}
  {
    if spends != [] {
      var n := |spends| - 1;
      SingleResolvesNothing(spends[..n]);
      SingleScan(spends[..n]);
      RingsOfElements(spends[..n]);
      assert spends[n].image !in RingsOf(spends[..n]);
    }
  }
}
