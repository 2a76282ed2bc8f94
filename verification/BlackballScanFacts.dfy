/** What the scan of the blackball tool keeps, for one and for several databases. */
module BlackballScanFacts {
  import opened SharedTypes
  import opened RingOffsets
  import opened RingClosure
  import opened BlackballScan

  ghost function ImagesAt(outputs: map<OutputData, set<KeyImage>>, od: OutputData): (s: set<KeyImage>) {
    if od in outputs then outputs[od] else {}
  }

  lemma {:induction false} IndexRingAdds(outputs: map<OutputData, set<KeyImage>>, amount: U64, absolute: seq<U64>,
                                         k: KeyImage, od: OutputData)
    ensures ImagesAt(IndexRing(outputs, amount, absolute, k), od) ==
            ImagesAt(outputs, od) + (if Ring(amount, absolute).Contains(od) then {k} else {})
  {
    if absolute != [] {
      var n := |absolute| - 1;
      assert absolute == absolute[..n] + [absolute[n]];
      IndexRingAdds(outputs, amount, absolute[..n], k, od);
    }
  }

  // ---- One input ---------------------------------------------------------------

  /** Input `sp` marks the outputs `marked`, and `ring` becomes the stored ring of its
      key image; other rings stay, and an input of the first database is indexed. */
  ghost predicate Scans(st: Scan, sp: Spend, marked: set<OutputData>, ring: seq<U64>, st': Scan) {
    && st'.spent == st.spent + marked && st'.newlySpent == st.newlySpent + marked
    && st'.relativeRings == st.relativeRings[sp.image := ring]
    && forall od, k :: k in ImagesAt(st'.outputs, od) <==>
      k in ImagesAt(st.outputs, od) || (sp.main && k == sp.image && Ring(sp.amount, Absolute(sp.offsets)).Contains(od))
  }

  lemma ScanSpendScans(st: Scan, sp: Spend)
    ensures Scans(st, sp, Found(st, sp), NewRing(st, sp), ScanSpend(st, sp))
  {
    hide Absolute, Found, NewRing;
    var r := Ring(sp.amount, Absolute(sp.offsets));
    forall od, k
      ensures k in ImagesAt(ScanSpend(st, sp).outputs, od) <==>
        k in ImagesAt(st.outputs, od) || (sp.main && k == sp.image && r.Contains(od))
    {
      IndexRingAdds(st.outputs, sp.amount, Absolute(sp.offsets), sp.image, od);
    }
  }

  /** The ring size, a 32-bit number in the tool, is one. */
  ghost predicate Single(sp: Spend) {
    |sp.offsets| % 0x1_0000_0000 == 1
  }

  /** A ring of one member marks it, whatever ring was stored before; a ring of any
      other size that is new, or the one already stored, marks nothing. All of them
      are stored. */
  lemma PlainInput(st: Scan, sp: Spend)
    requires Single(sp) || sp.image !in st.relativeRings || st.relativeRings[sp.image] == sp.offsets
    ensures var marked := if Single(sp) then {OutputData(sp.amount, sp.offsets[0])} else {};
      Scans(st, sp, marked, sp.offsets, ScanSpend(st, sp))
  {
    hide Absolute;
    ScanSpendScans(st, sp);
  }

  /** Positions of `r0` whose member `r1` has too. */
  ghost function CommonPositions(r0: seq<U64>, r1: seq<U64>): (s: set<nat>) {
    set p: nat | p < |r0| && r0[p] in r1
  }

  lemma {:induction false} CommonSize(r0: seq<U64>, r1: seq<U64>)
    ensures |Common(r0, r1)| == |CommonPositions(r0, r1)|
  {
    if r0 != [] {
      var n := |r0| - 1;
      CommonSize(r0[..n], r1);
      CommonPositionsMore(r0, r1);
      hide CommonPositions;
    }
  }

  lemma CommonPositionsMore(r0: seq<U64>, r1: seq<U64>)
    requires r0 != []
    ensures var n := |r0| - 1;
      && n !in CommonPositions(r0[..n], r1)
      && CommonPositions(r0, r1) == CommonPositions(r0[..n], r1) + if r0[n] in r1 then {n} else {}
  {
  }

  lemma {:induction false} CommonCount(r0: seq<U64>, r1: seq<U64>, x: U64)
    ensures multiset(Common(r0, r1))[x] == if x in r1 then multiset(r0)[x] else 0
  {
    if r0 != [] {
      var n := |r0| - 1;
      CommonCount(r0[..n], r1, x);
      assert r0 == r0[..n] + [r0[n]];
    }
  }

  lemma MergedCount(offsets: seq<U64>, r0: seq<U64>, r1: seq<U64>, x: U64)
    ensures multiset(Sorted(offsets + Common(r0, r1)))[x] ==
      multiset(offsets)[x] + if x in r1 then multiset(r0)[x] else 0
  {
    hide Sorted, Common;
    CommonCount(r0, r1, x);
    assert multiset(offsets + Common(r0, r1)) == multiset(offsets) + multiset(Common(r0, r1));
  }

  /** `sp` has a ring of other than one member for a key image stored with other offsets. */
  ghost predicate AnotherRing(st: Scan, sp: Spend) {
    !Single(sp) && sp.image in st.relativeRings && st.relativeRings[sp.image] != sp.offsets
  }

  /** If the rings have no member in common, or if one position of the stored ring is
      in common, the new ring is stored; the output at that position is marked. */
  lemma ComparedInput(st: Scan, sp: Spend)
    requires AnotherRing(st, sp)
    ensures var r0, r1 := Absolute(st.relativeRings[sp.image]), Absolute(sp.offsets);
      && (CommonPositions(r0, r1) == {} ==> Scans(st, sp, {}, sp.offsets, ScanSpend(st, sp)))
      && forall p: nat :: CommonPositions(r0, r1) == {p} ==>
        p < |r0| && Scans(st, sp, {OutputData(sp.amount, r0[p])}, sp.offsets, ScanSpend(st, sp))
  {
    hide Absolute, Scans;
    ScanSpendScans(st, sp);
    var r0, r1 := Absolute(st.relativeRings[sp.image]), Absolute(sp.offsets);
    CommonSize(r0, r1);
    forall p: nat | CommonPositions(r0, r1) == {p} ensures p < |r0| && Found(st, sp) == {OutputData(sp.amount, r0[p])} {
      SoleCommon(r0, r1, p);
    }
  }

  lemma SoleCommon(r0: seq<U64>, r1: seq<U64>, p: nat)
    requires CommonPositions(r0, r1) == {p}
    ensures p < |r0| && Common(r0, r1) == [r0[p]]
  {
    assert p in CommonPositions(r0, r1);
    CommonSize(r0, r1);
    var x := Common(r0, r1)[0];
    assert x in Common(r0, r1);
    var q: nat :| q < |r0| && r0[q] == x;
    assert q in CommonPositions(r0, r1);
  }

  /** The ring is in ascending order, and holds the relative offsets `offsets`
      together with the members of `r0` that `r1` has too. */
  ghost predicate MergeOf(ring: seq<U64>, offsets: seq<U64>, r0: seq<U64>, r1: seq<U64>) {
    && Ascending(Absolute(ring))
    && forall x :: multiset(Absolute(ring))[x] == multiset(offsets)[x] + if x in r1 then multiset(r0)[x] else 0
  }

  lemma RelativeIsMerge(offsets: seq<U64>, r0: seq<U64>, r1: seq<U64>)
    ensures MergeOf(Relative(offsets + Common(r0, r1)), offsets, r0, r1)
  {
    hide Absolute, Relative, Common, Ascending;
    RelativeThenAbsolute(offsets + Common(r0, r1));
    hide Sorted;
    forall x ensures multiset(Sorted(offsets + Common(r0, r1)))[x] ==
      multiset(offsets)[x] + if x in r1 then multiset(r0)[x] else 0
    {
      MergedCount(offsets, r0, r1, x);
    }
  }

  /** If more positions are in common, nothing is marked, and what is stored is the
      new ring's relative offsets with the members at the common positions. */
  lemma MergedInput(st: Scan, sp: Spend) returns (ring: seq<U64>)
    requires AnotherRing(st, sp)
    requires |CommonPositions(Absolute(st.relativeRings[sp.image]), Absolute(sp.offsets))| > 1
    ensures Scans(st, sp, {}, ring, ScanSpend(st, sp))
    ensures MergeOf(ring, sp.offsets, Absolute(st.relativeRings[sp.image]), Absolute(sp.offsets))
  {
    hide Absolute, Relative, Scans, MergeOf, Common, CommonPositions;
    ScanSpendScans(st, sp);
    var r0, r1 := Absolute(st.relativeRings[sp.image]), Absolute(sp.offsets);
    CommonSize(r0, r1);
    ring := Relative(sp.offsets + Common(r0, r1));
    RelativeIsMerge(sp.offsets, r0, r1);
  }

  // ---- One database -----------------------------------------------------------

  /** The rings of a list of spends, by key image; absolute indices. */
  function RingsOf(spends: seq<Spend>): (rings: Rings) {
    if spends == [] then map[]
    else RingsOf(spends[..|spends| - 1])[spends[|spends| - 1].image := spends[|spends| - 1].AbsoluteRing()]
  }

  /** Spends of the first database with no key image used twice. */
  ghost predicate UniqueImages(spends: seq<Spend>) {
    && (forall sp :: sp in spends ==> sp.main && |sp.offsets| < TWO32)
    && forall i, j :: 0 <= i < j < |spends| ==> spends[i].image != spends[j].image
  }

  lemma {:induction false} RingsOfElements(spends: seq<Spend>)
    requires UniqueImages(spends)
    ensures forall k :: k in RingsOf(spends) ==> exists sp :: sp in spends && sp.image == k
    ensures forall sp :: sp in spends ==> sp.image in RingsOf(spends) && RingsOf(spends)[sp.image] == sp.AbsoluteRing()
  {
    if spends != [] {
      var n := |spends| - 1;
      RingsOfElements(spends[..n]);
      assert spends == spends[..n] + [spends[n]];
    }
  }

  /** The index lists, for every output, the key images whose rings contain it. */
  ghost predicate Indexed(rings: Rings, outputs: map<OutputData, set<KeyImage>>) {
    forall od, k :: k in ImagesAt(outputs, od) <==> k in rings && rings[k].Contains(od)
  }

  /** The stored relative offsets are those of `rings`. */
  ghost predicate Stores(relativeRings: map<KeyImage, seq<U64>>, rings: Rings) {
    && relativeRings.Keys == rings.Keys
    && forall k :: k in rings ==> Absolute(relativeRings[k]) == rings[k].members
  }

  /** The scan of one database without repeated key images: it stores every
      ring, indexes exactly their members, and marks exactly the one-member rings. */
  lemma {:induction false} SingleScan(spends: seq<Spend>)
    requires UniqueImages(spends)
    ensures Stores(ScanAll(spends).relativeRings, RingsOf(spends))
    ensures Indexed(RingsOf(spends), ScanAll(spends).outputs)
    ensures forall o :: o in ScanAll(spends).spent <==> OneRingOutput(RingsOf(spends), o)
    ensures ScanAll(spends).newlySpent == ScanAll(spends).spent
  {
    if spends == [] {
    } else {
      var n := |spends| - 1;
      var init, sp := spends[..n], spends[n];
      SingleScan(init);
      RingsOfElements(init);
      assert sp.image !in RingsOf(init);
      SingleScanIndex(ScanAll(init), RingsOf(init), sp);
      SingleScanMarks(ScanAll(init), RingsOf(init), sp);
    }
  }

  lemma IndexOneMore(rings: Rings, outputs: map<OutputData, set<KeyImage>>, k: KeyImage, r: Ring)
    requires Indexed(rings, outputs) && k !in rings
    ensures Indexed(rings[k := r], IndexRing(outputs, r.amount, r.members, k))
  {
    forall od, j
      ensures j in ImagesAt(IndexRing(outputs, r.amount, r.members, k), od) <==>
        j in rings[k := r] && rings[k := r][j].Contains(od)
    {
      IndexRingAdds(outputs, r.amount, r.members, k, od);
      assert j in ImagesAt(outputs, od) <==> j in rings && rings[j].Contains(od);
    }
  }

  lemma SingleScanIndex(st: Scan, rings: Rings, sp: Spend)
    requires sp.main && Stores(st.relativeRings, rings) && Indexed(rings, st.outputs) && sp.image !in rings
    ensures Stores(ScanSpend(st, sp).relativeRings, rings[sp.image := sp.AbsoluteRing()])
    ensures Indexed(rings[sp.image := sp.AbsoluteRing()], ScanSpend(st, sp).outputs)
  {
    IndexOneMore(rings, st.outputs, sp.image, sp.AbsoluteRing());
    assert NewRing(st, sp) == sp.offsets;
  }

  lemma SingleScanMarks(st: Scan, rings: Rings, sp: Spend)
    requires |sp.offsets| < TWO32 && Stores(st.relativeRings, rings) && sp.image !in rings
    requires forall o :: o in st.spent <==> OneRingOutput(rings, o)
    requires st.newlySpent == st.spent
    ensures forall o :: o in ScanSpend(st, sp).spent <==> OneRingOutput(rings[sp.image := sp.AbsoluteRing()], o)
    ensures ScanSpend(st, sp).newlySpent == ScanSpend(st, sp).spent
  {
    var rings' := rings[sp.image := sp.AbsoluteRing()];
    var st' := ScanSpend(st, sp);
    forall o ensures o in st'.spent <==> OneRingOutput(rings', o) {
      assert OneRingOutput(rings, o) ==> OneRingOutput(rings', o) by {
        if OneRingOutput(rings, o) {
          var k :| k in rings && rings[k] == Ring(o.amount, [o.index]);
          assert k in rings' && rings'[k] == rings[k];
        }
      }
      if o in st'.spent && o !in st.spent {
        assert |sp.offsets| == 1;
        assert sp.AbsoluteRing() == Ring(o.amount, [o.index]);
        assert sp.image in rings' && rings'[sp.image] == sp.AbsoluteRing();
      }
      if OneRingOutput(rings', o) && o !in st.spent {
        var k :| k in rings' && rings'[k] == Ring(o.amount, [o.index]);
        assert k == sp.image;
        assert sp.offsets == [o.index];
      }
    }
  }

  // ---- Any number of databases --------------------------------------------------

  /** `truth` gives each key image the output it really spends: every ring seen
      for it, in whatever database, has that output's amount and contains it. */
  ghost predicate Truthful(spends: seq<Spend>, truth: map<KeyImage, OutputData>) {
    forall sp :: sp in spends ==> Shows(sp, truth)
  }

  ghost predicate KeepsTruth(st: Scan, truth: map<KeyImage, OutputData>) {
    && (forall k :: k in st.relativeRings ==> k in truth && truth[k].index in Absolute(st.relativeRings[k]))
    && (forall o :: o in st.spent ==> exists k :: k in st.relativeRings && k in truth && truth[k] == o)
    && st.newlySpent == st.spent
    && forall od, k :: k in ImagesAt(st.outputs, od) ==> k in st.relativeRings && truth[k].amount == od.amount
  }

  lemma MergedRingMembers(offsets: seq<U64>, common: seq<U64>)
    ensures forall x :: x in Absolute(Relative(offsets + common)) <==> x in offsets || x in common
  {
    RelativeThenAbsolute(offsets + common);
    SortedMembers(offsets + common);
  }

  ghost predicate Shows(sp: Spend, truth: map<KeyImage, OutputData>) {
    |sp.offsets| < TWO32 && sp.image in truth && sp.AbsoluteRing().Contains(truth[sp.image])
  }

  lemma NewRingKeepsTruth(st: Scan, truth: map<KeyImage, OutputData>, sp: Spend)
    requires KeepsTruth(st, truth) && Shows(sp, truth)
    ensures truth[sp.image].index in Absolute(NewRing(st, sp))
  {
    if Differs(st, sp) {
      MergedRingMembers(sp.offsets, Shared(st, sp));
    }
  }

  lemma FoundIsTrue(st: Scan, truth: map<KeyImage, OutputData>, sp: Spend)
    requires KeepsTruth(st, truth) && Shows(sp, truth)
    ensures Found(st, sp) <= {truth[sp.image]}
  {
    if |sp.offsets| == 1 {
      assert Absolute(sp.offsets) == sp.offsets;
    } else if Differs(st, sp) {
      assert truth[sp.image].index in Shared(st, sp);
    }
  }

  lemma ScanSpendKeepsTruth(st: Scan, truth: map<KeyImage, OutputData>, sp: Spend)
    requires KeepsTruth(st, truth) && Shows(sp, truth)
    ensures KeepsTruth(ScanSpend(st, sp), truth)
  {
    var st' := ScanSpend(st, sp);
    NewRingKeepsTruth(st, truth, sp);
    FoundIsTrue(st, truth, sp);
    assert sp.image in st'.relativeRings;
    forall o | o in st'.spent ensures exists k :: k in st'.relativeRings && k in truth && truth[k] == o {
      if o in st.spent {
        var k :| k in st.relativeRings && k in truth && truth[k] == o;
        assert k in st'.relativeRings;
      }
    }
    forall od, k | k in ImagesAt(st'.outputs, od) ensures k in st'.relativeRings && truth[k].amount == od.amount {
      if sp.main {
        IndexRingAdds(st.outputs, sp.amount, Absolute(sp.offsets), sp.image, od);
      }
    }
  }

  /** Through any number of databases the scan never loses a true spend from a
      stored ring, and every output it marks is a true spend. */
  lemma {:induction false} ScanKeepsTruth(spends: seq<Spend>, truth: map<KeyImage, OutputData>)
    requires Truthful(spends, truth)
    ensures KeepsTruth(ScanAll(spends), truth)
  {
    if spends != [] {
      var n := |spends| - 1;
      ScanKeepsTruth(spends[..n], truth);
      assert spends[n] in spends;
      ScanSpendKeepsTruth(ScanAll(spends[..n]), truth, spends[n]);
    }
  }

  /** Comparing the ring of `sp` with the stored one leaves exactly one output. */
  ghost predicate Resolves(st: Scan, sp: Spend) {
    Differs(st, sp) && |Shared(st, sp)| == 1
  }

  /** The key images that the scan resolved by comparing two rings. */
  ghost function ResolvedImages(spends: seq<Spend>): (r: set<KeyImage>) {
    if spends == [] then {}
    else
      var n := |spends| - 1;
      ResolvedImages(spends[..n]) + (if Resolves(ScanAll(spends[..n]), spends[n]) then {spends[n].image} else {})
  }

  ghost predicate Injective(truth: map<KeyImage, OutputData>) {
    forall j, k :: j in truth && k in truth && truth[j] == truth[k] ==> j == k
  }

  /** A consistent history of several databases: every key image seen spends one
      output, shown by all its rings, and no two spend the same. */
  ghost predicate History(spends: seq<Spend>, truth: map<KeyImage, OutputData>) {
    Truthful(spends, truth) && Injective(truth)
  }

  lemma CommonOfOne(x: U64, r: seq<U64>)
    requires x in r
    ensures Common([x], r) == [x]
  {
    assert Common([x][..0], r) == [];
  }

  /** A stored one-member ring stays as it is. */
  lemma OneRingStays(st: Scan, truth: map<KeyImage, OutputData>, sp: Spend)
    requires Shows(sp, truth) && !Resolves(st, sp)
    requires sp.image in st.relativeRings && st.relativeRings[sp.image] == [truth[sp.image].index]
    ensures NewRing(st, sp) == [truth[sp.image].index]
  {
    hide Relative;
    var x := truth[sp.image].index;
    CommonOfOne(x, Absolute(sp.offsets));
    assert Absolute([x]) == [x];
    assert !Differs(st, sp);
  }

  /** A key image whose true spend is marked is resolved or stored with a ring of
      that one output; the true spends of resolved key images are marked. */
  ghost predicate MarkedOnlyBy(st: Scan, truth: map<KeyImage, OutputData>, resolved: set<KeyImage>)
    requires KeepsTruth(st, truth)
  {
    OnlyBy(st.relativeRings, st.spent, truth, resolved)
  }

  ghost predicate OnlyBy(rel: map<KeyImage, seq<U64>>, spent: set<OutputData>, truth: map<KeyImage, OutputData>,
                         resolved: set<KeyImage>)
    requires rel.Keys <= truth.Keys
  {
    && (forall k :: k in rel && truth[k] in spent && k !in resolved ==> rel[k] == [truth[k].index])
    && forall k :: k in resolved ==> k in rel && truth[k] in spent
  }

  lemma ScanSpendMarks(st: Scan, truth: map<KeyImage, OutputData>, sp: Spend, resolved: set<KeyImage>)
    requires KeepsTruth(st, truth) && Shows(sp, truth) && Injective(truth) && MarkedOnlyBy(st, truth, resolved)
    ensures KeepsTruth(ScanSpend(st, sp), truth)
    ensures MarkedOnlyBy(ScanSpend(st, sp), truth, resolved + (if Resolves(st, sp) then {sp.image} else {}))
  {
    ScanSpendKeepsTruth(st, truth, sp);
    FoundIsTrue(st, truth, sp);
    var marked := st.spent + Found(st, sp);
    var resolved' := resolved + (if Resolves(st, sp) then {sp.image} else {});
    if truth[sp.image] in marked && sp.image !in resolved' {
      SoleRingStored(st, truth, sp, resolved);
    }
    if Resolves(st, sp) {
      ResolvedIsMarked(st, truth, sp);
    }
    OnlyByMore(st.relativeRings, st.spent, ScanSpend(st, sp).spent, truth, sp.image, NewRing(st, sp), resolved,
               resolved');
  }

  lemma OnlyByMore(rel: map<KeyImage, seq<U64>>, spent: set<OutputData>, spent': set<OutputData>,
                   truth: map<KeyImage, OutputData>, image: KeyImage, ring: seq<U64>,
                   resolved: set<KeyImage>, resolved': set<KeyImage>)
    requires rel.Keys <= truth.Keys && image in truth && Injective(truth) && OnlyBy(rel, spent, truth, resolved)
    requires spent <= spent' <= spent + {truth[image]} && resolved <= resolved' <= resolved + {image}
    requires truth[image] in spent' && image !in resolved' ==> ring == [truth[image].index]
    requires image in resolved' ==> truth[image] in spent'
    ensures OnlyBy(rel[image := ring], spent', truth, resolved')
  {
    forall k | k in rel[image := ring] && truth[k] in spent' && k !in resolved'
      ensures rel[image := ring][k] == [truth[k].index]
    {
      if k != image {
        assert truth[k] in spent;
      }
    }
  }

  lemma ResolvedIsMarked(st: Scan, truth: map<KeyImage, OutputData>, sp: Spend)
    requires KeepsTruth(st, truth) && Shows(sp, truth) && Resolves(st, sp)
    ensures truth[sp.image] in Found(st, sp)
  {
    FoundIsTrue(st, truth, sp);
    assert Found(st, sp) != {};
  }

  lemma SoleRingStored(st: Scan, truth: map<KeyImage, OutputData>, sp: Spend, resolved: set<KeyImage>)
    requires KeepsTruth(st, truth) && Shows(sp, truth) && Injective(truth) && MarkedOnlyBy(st, truth, resolved)
    requires !Resolves(st, sp) && sp.image !in resolved
    requires truth[sp.image] in st.spent + Found(st, sp)
    ensures NewRing(st, sp) == [truth[sp.image].index]
  {
    if truth[sp.image] in st.spent {
      var k :| k in st.relativeRings && k in truth && truth[k] == truth[sp.image];
      assert k == sp.image;
      OneRingStays(st, truth, sp);
    } else {
      assert |sp.offsets| == 1;
      assert Absolute(sp.offsets) == sp.offsets;
    }
  }

  /** What the scan marks, through any number of databases. */
  lemma {:induction false} ScanMarksSoleOrResolved(spends: seq<Spend>, truth: map<KeyImage, OutputData>)
    requires History(spends, truth)
    ensures KeepsTruth(ScanAll(spends), truth)
    ensures MarkedOnlyBy(ScanAll(spends), truth, ResolvedImages(spends))
  {
    if spends != [] {
      var n := |spends| - 1;
      ScanMarksSoleOrResolved(spends[..n], truth);
      assert spends[n] in spends;
      ScanSpendMarks(ScanAll(spends[..n]), truth, spends[n], ResolvedImages(spends[..n]));
    }
  }
}
