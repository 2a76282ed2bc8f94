/** When the blackball tool finds every output that all histories spend. */
module BlackballComplete {
  import opened SharedTypes
  import opened RingOffsets
  import opened RingClosure
  import opened TightFamilies
  import opened BlackballScan
  import opened BlackballScanFacts
  import opened BlackballSecondPass
  import opened Blackball

  /** A run never enters what `g` has beyond `f` while no ring of `g` peels it off. */
  lemma {:induction false} RunStuck(rel: RelativeRings, index: Index, rings: Rings, s: set<OutputData>,
                                    cause: map<OutputData, KeyImage>, run: seq<Inference>,
                                    a: map<KeyImage, OutputData>, f: set<KeyImage>, g: set<KeyImage>)
    requires Agrees(rel, index, rings) && Legit(rel, index, s, run) && Supported(rings, s, cause)
    requires Assignment(rings, a) && Tight(rings, g) && !Peels(rings, g, Members(rings, f))
    requires s * Members(rings, g) <= Members(rings, f)
    ensures After(s, run) * Members(rings, g) <= Members(rings, f)
  {
    hide Members, Tight, Peels, Agrees, Supported, Assignment;
    if run != [] {
      var n := |run| - 1;
      var s' := After(s, run[..n]);
      RunStuck(rel, index, rings, s, cause, run[..n], a, f, g);
      var cause' := RunKeepsSupport(rel, index, rings, s, cause, run[..n]);
      JustifiedMeansForced(rel, index, rings, s', run[n]);
      if run[n].out in Members(rings, g) && run[n].out !in Members(rings, f) {
        EnteringPeels(rings, s', cause', a, f, g, run[n].image, run[n].p);
      }
    }
  }

  lemma OneRingsStuck(rings: Rings, s: set<OutputData>, a: map<KeyImage, OutputData>, f: set<KeyImage>,
                      g: set<KeyImage>)
    requires forall o :: o in s ==> OneRingOutput(rings, o)
    requires Assignment(rings, a) && Tight(rings, g) && !Peels(rings, g, Members(rings, f))
    ensures s * Members(rings, g) <= Members(rings, f)
  {
    hide Members, Tight, Peels, Assignment;
    forall o | o in s * Members(rings, g) ensures o in Members(rings, f) {
      var k :| k in rings && rings[k] == Ring(o.amount, [o.index]);
      if o !in Members(rings, f) {
        assert Supported(rings, {}, map[]);
        assert rings[k].Forced(0, {}) && rings[k].Out(0) == o;
        EnteringPeels(rings, {}, map[], a, f, g, k, 0);
      }
    }
  }

  /** `spent` has every output that all consistent histories spend. */
  ghost predicate Complete(rings: Rings, spent: set<OutputData>) {
    forall o :: Certain(rings, o) ==> o in spent
  }

  lemma CompletePeels(spends: seq<Spend>, spent: set<OutputData>, run: seq<Inference>, a: map<KeyImage, OutputData>,
                      f: set<KeyImage>, g: set<KeyImage>)
    requires UniqueImages(spends) && YieldsBy(ScanAll(spends), spent, run) && Complete(RingsOf(spends), spent)
    requires Assignment(RingsOf(spends), a)
    requires Tight(RingsOf(spends), g) && !Peels(RingsOf(spends), g, Members(RingsOf(spends), f))
    ensures Members(RingsOf(spends), g) <= Members(RingsOf(spends), f)
  {
    var st, rings := ScanAll(spends), RingsOf(spends);
    SingleScan(spends);
    assert Agrees(st.relativeRings, st.outputs, rings);
    hide ScanAll, RingsOf, Members, Tight, Peels, Certain, Assignment, Exhausted, Agrees;
    var cause := OneRingsSupported(rings, st.spent);
    OneRingsStuck(rings, st.spent, a, f, g);
    RunStuck(st.relativeRings, st.outputs, rings, st.spent, cause, run, a, f, g);
    forall o | o in Members(rings, g) ensures o in Members(rings, f) {
      TightIsCertain(rings, g, o);
    }
  }

  lemma MembersGrow(rings: Rings, f: set<KeyImage>, g: set<KeyImage>)
    requires f <= g
    ensures Members(rings, f) <= Members(rings, g)
  {
  }

  /** One database that has a consistent history: the tool finds every output that
      all histories spend exactly when its rings are peelable, in whatever order it
      works. */
  lemma ResultIsCompleteIff(spends: seq<Spend>, spent: set<OutputData>)
    requires UniqueImages(spends) && Yields(ScanAll(spends), spent)
    requires exists a :: Assignment(RingsOf(spends), a)
    ensures Complete(RingsOf(spends), spent) <==> Peelable(RingsOf(spends))
  {
    hide ScanAll, RingsOf, Members, Tight, Peels, Certain, Assignment, UniqueImages;
    var rings := RingsOf(spends);
    var a :| Assignment(rings, a);
    var run :| YieldsBy(ScanAll(spends), spent, run);
    if Peelable(rings) {
      var cause := SingleResult(spends, run, spent);
      forall o | Certain(rings, o) ensures o in spent {
        PeelableIsComplete(rings, spent, cause, o);
      }
    }
    if Complete(rings, spent) {
      forall f, g | Tight(rings, f) && Tight(rings, g) && f <= g && Members(rings, f) != Members(rings, g)
        ensures Peels(rings, g, Members(rings, f))
      {
        MembersGrow(rings, f, g);
        if !Peels(rings, g, Members(rings, f)) {
          CompletePeels(spends, spent, run, a, f, g);
        }
      }
    }
  }

  /** The same said of the result: it is complete exactly when it has the members
      of every tight family. */
  lemma CompleteIffTight(rings: Rings, spent: set<OutputData>)
    requires exists a :: Assignment(rings, a)
    ensures Complete(rings, spent) <==> forall family :: Tight(rings, family) ==> Members(rings, family) <= spent
  {
    hide Members, Tight, Certain, Assignment;
    forall o ensures Certain(rings, o) <==> exists family :: Tight(rings, family) && o in Members(rings, family) {
      CertainIff(rings, o);
    }
  }

  // ---- An instance --------------------------------------------------------------------------

  /** Three key images with the rings {1, 2}, {1, 2} and {1, 2, 3}. */
  function Unpeelable(): (spends: seq<Spend>) {
    [Spend(true, 0, [1, 1], KeyImage(0)), Spend(true, 0, [1, 1], KeyImage(1)), Spend(true, 0, [1, 1, 1], KeyImage(2))]
  }

  lemma UnpeelableRings()
    ensures RingsOf(Unpeelable()) ==
      map[KeyImage(0) := Ring(0, [1, 2]), KeyImage(1) := Ring(0, [1, 2]), KeyImage(2) := Ring(0, [1, 2, 3])]
  {
    var s := Unpeelable();
    assert [1, 1][..1] == [1] && [1, 1, 1][..2] == [1, 1];
    assert Absolute([1, 1]) == [1, 2];
    assert Absolute([1, 1, 1]) == [1, 2, 3];
    assert s[..2] == [s[0], s[1]] && s[..2][..1] == [s[0]] && s[..2][..1][..0] == [];
    assert RingsOf([s[0]]) == map[KeyImage(0) := Ring(0, [1, 2])];
    assert RingsOf(s[..2]) == map[KeyImage(0) := Ring(0, [1, 2]), KeyImage(1) := Ring(0, [1, 2])];
  }

  lemma UnpeelableLeast(rings: Rings)
    requires rings ==
      map[KeyImage(0) := Ring(0, [1, 2]), KeyImage(1) := Ring(0, [1, 2]), KeyImage(2) := Ring(0, [1, 2, 3])]
    ensures Least(rings, {})
  {
    forall k, p: nat | k in rings && p < |rings[k].members| ensures !rings[k].Forced(p, {}) {
      assert rings[k].Out(if p == 0 then 1 else 0) !in {};
    }
  }

  lemma UnpeelableCertain(rings: Rings, a: map<KeyImage, OutputData>)
    requires rings ==
      map[KeyImage(0) := Ring(0, [1, 2]), KeyImage(1) := Ring(0, [1, 2]), KeyImage(2) := Ring(0, [1, 2, 3])]
    requires Assignment(rings, a)
    ensures Image(a) == {OutputData(0, 1), OutputData(0, 2), OutputData(0, 3)}
  {
    var k0, k1, k2 := KeyImage(0), KeyImage(1), KeyImage(2);
    assert rings[k0].Contains(a[k0]) && rings[k1].Contains(a[k1]) && rings[k2].Contains(a[k2]);
    assert a[k0] != a[k1] && a[k1] != a[k2] && a[k0] != a[k2];
    assert Image(a) == {a[k0], a[k1], a[k2]};
  }

  lemma UnpeelableHistory(rings: Rings)
    requires rings ==
      map[KeyImage(0) := Ring(0, [1, 2]), KeyImage(1) := Ring(0, [1, 2]), KeyImage(2) := Ring(0, [1, 2, 3])]
    ensures exists a :: Assignment(rings, a)
  {
    var a := map[KeyImage(0) := OutputData(0, 1), KeyImage(1) := OutputData(0, 2), KeyImage(2) := OutputData(0, 3)];
    assert [1, 2][0] == 1 && [1, 2][1] == 2 && [1, 2, 3][2] == 3;
    assert Assignment(rings, a);
  }

  lemma UnpeelableResult(spends: seq<Spend>, spent: set<OutputData>)
    requires UniqueImages(spends) && Least(RingsOf(spends), {}) && Yields(ScanAll(spends), spent)
    ensures spent == {}
  {
    ResultIsExact(spends, spent);
    LeastIsUnique(RingsOf(spends), spent, {});
  }

  /** There is a history, every history spends all three outputs, and every
      execution finds none. */
  lemma IncompleteExample(spent: set<OutputData>, x: U64)
    requires Yields(ScanAll(Unpeelable()), spent) && 1 <= x <= 3
    ensures exists a :: Assignment(RingsOf(Unpeelable()), a)
    ensures Certain(RingsOf(Unpeelable()), OutputData(0, x))
    ensures spent == {}
  {
    hide ScanAll, RingsOf, Least, Assignment, Yields;
    var rings := RingsOf(Unpeelable());
    UnpeelableRings();
    UnpeelableLeast(rings);
    UnpeelableHistory(rings);
    UnpeelableResult(Unpeelable(), spent);
    forall a | Assignment(rings, a) ensures OutputData(0, x) in Image(a) {
      UnpeelableCertain(rings, a);
    }
  }
}
