/** Which outputs every consistent history spends: those in a family of rings
    that together have as many members as there are rings. */
module TightFamilies {
  import opened SharedTypes
  import opened RingClosure

  /** The outputs in the rings of a family of key images. */
  ghost function Members(rings: Rings, family: set<KeyImage>): (s: set<OutputData>) {
    set k, x | k in family && k in rings && x in rings[k].members :: OutputData(rings[k].amount, x)
  }

  lemma MemberOf(rings: Rings, family: set<KeyImage>, k: KeyImage, o: OutputData)
    requires k in family && k in rings && rings[k].Contains(o)
    ensures o in Members(rings, family)
  {
    assert o == OutputData(rings[k].amount, o.index);
  }

  lemma MemberRing(rings: Rings, family: set<KeyImage>, o: OutputData) returns (k: KeyImage)
    requires o in Members(rings, family)
    ensures k in family && k in rings && rings[k].Contains(o)
  {
    k :| k in family && k in rings && rings[k].Contains(o);
  }

  ghost predicate Tight(rings: Rings, family: set<KeyImage>) {
    family <= rings.Keys && |Members(rings, family)| == |family|
  }

  /** Every consistent history spends the output. */
  ghost predicate Certain(rings: Rings, o: OutputData) {
    forall a :: Assignment(rings, a) ==> o in Image(a)
  }

  /** What a family spends under an assignment. */
  ghost function SpentBy(a: map<KeyImage, OutputData>, family: set<KeyImage>): (s: set<OutputData>) {
    set k | k in family && k in a :: a[k]
  }

  lemma SpentBySize(rings: Rings, a: map<KeyImage, OutputData>, family: set<KeyImage>)
    requires Assignment(rings, a) && family <= rings.Keys
    ensures |SpentBy(a, family)| == |family|
    ensures SpentBy(a, family) <= Members(rings, family)
  {
    hide Members;
    var m := map k | k in family :: a[k];
    assert m.Keys == family;
    ImageSize(m);
    assert Image(m) == SpentBy(a, family);
    forall o | o in SpentBy(a, family) ensures o in Members(rings, family) {
      var k :| k in family && a[k] == o;
      MemberOf(rings, family, k, o);
    }
  }

  /** A family is tight exactly when it spends all its members. */
  lemma TightIff(rings: Rings, a: map<KeyImage, OutputData>, family: set<KeyImage>)
    requires Assignment(rings, a) && family <= rings.Keys
    ensures Tight(rings, family) <==> SpentBy(a, family) == Members(rings, family)
  {
    hide Members, SpentBy;
    SpentBySize(rings, a, family);
    SubsetSize(SpentBy(a, family), Members(rings, family));
  }

  // ---- Alternating paths --------------------------------------------------------------

  /** Each key image could spend what the next one spends now. */
  ghost predicate Path(rings: Rings, a: map<KeyImage, OutputData>, path: seq<KeyImage>) {
    && path != []
    && (forall i :: 0 <= i < |path| ==> path[i] in rings && path[i] in a)
    && (forall i :: 0 <= i < |path| - 1 ==> rings[path[i]].Contains(a[path[i + 1]]))
    && forall i, j :: 0 <= i < j < |path| ==> path[i] != path[j]
  }

  /** Giving the last key image of the path the unspent output `u`, and each other
      one what its successor spent, frees the output of the first. */
  lemma {:induction false} ShiftFrees(rings: Rings, a: map<KeyImage, OutputData>, path: seq<KeyImage>, u: OutputData)
    returns (a': map<KeyImage, OutputData>)
    requires Assignment(rings, a) && Path(rings, a, path)
    requires rings[path[|path| - 1]].Contains(u) && u !in Image(a)
    ensures Assignment(rings, a') && a[path[0]] !in Image(a')
    decreases |path|
  {
    var n := |path| - 1;
    var last := path[n];
    a' := a[last := u];
    MovedAssignment(rings, a, last, u);
    if n > 0 {
      assert Path(rings, a', path[..n]);
      a' := ShiftFrees(rings, a', path[..n], a[last]);
    }
  }

  lemma MovedAssignment(rings: Rings, a: map<KeyImage, OutputData>, k: KeyImage, u: OutputData)
    requires Assignment(rings, a) && k in rings && rings[k].Contains(u) && u !in Image(a)
    ensures Assignment(rings, a[k := u]) && a[k] !in Image(a[k := u])
  {
    var a' := a[k := u];
    forall j | j in a' && j != k ensures a'[j] != u && a'[j] != a[k] {
      assert a[j] in Image(a);
    }
  }

  /** The key images reached so far, each with a path from `first`. */
  ghost predicate Reached(rings: Rings, a: map<KeyImage, OutputData>, first: KeyImage,
                          paths: map<KeyImage, seq<KeyImage>>)
  {
    && first in paths && paths.Keys <= rings.Keys
    && forall k :: k in paths ==>
      && Path(rings, a, paths[k]) && paths[k][0] == first && paths[k][|paths[k]| - 1] == k
      && forall j :: j in paths[k] ==> j in paths
  }

  lemma ReachMore(rings: Rings, a: map<KeyImage, OutputData>, first: KeyImage, paths: map<KeyImage, seq<KeyImage>>,
                  k: KeyImage, next: KeyImage)
    requires Assignment(rings, a) && Reached(rings, a, first, paths)
    requires k in paths && next in rings && next !in paths && rings[k].Contains(a[next])
    ensures Reached(rings, a, first, paths[next := paths[k] + [next]])
  {
    assert next !in paths[k];
    PathMore(rings, a, paths[k], next);
    hide Path, Ring.Contains;
    var path := paths[k] + [next];
    assert path[0] == first && path[|path| - 1] == next;
  }

  lemma PathMore(rings: Rings, a: map<KeyImage, OutputData>, path: seq<KeyImage>, next: KeyImage)
    requires Assignment(rings, a) && Path(rings, a, path) && next in rings && next !in path
    requires rings[path[|path| - 1]].Contains(a[next])
    ensures Path(rings, a, path + [next])
  {
    assert a.Keys == rings.Keys;
    hide Assignment, Ring.Contains;
  }

  /** All members of the reached rings are spent by reached key images. */
  ghost predicate ClosedUnderPaths(rings: Rings, a: map<KeyImage, OutputData>, family: set<KeyImage>) {
    forall k, o :: k in family && k in rings && rings[k].Contains(o) ==> o in SpentBy(a, family)
  }

  /** Either some reachable ring has an unspent member, or the reachable rings
      spend all their members. */
  lemma Explore(rings: Rings, a: map<KeyImage, OutputData>, first: KeyImage, paths: map<KeyImage, seq<KeyImage>>)
    returns (paths': map<KeyImage, seq<KeyImage>>)
    requires Assignment(rings, a) && Reached(rings, a, first, paths)
    ensures Reached(rings, a, first, paths')
    ensures ClosedUnderPaths(rings, a, paths'.Keys) ||
      exists k, u :: k in paths' && rings[k].Contains(u) && u !in Image(a)
    decreases |rings.Keys - paths.Keys|
  {
    paths' := paths;
    if k, u :| k in paths && rings[k].Contains(u) && u !in SpentBy(a, paths.Keys) {
      if u in Image(a) {
        var next :| next in a && a[next] == u;
        ReachMore(rings, a, first, paths, k, next);
        var more := paths[next := paths[k] + [next]];
        assert next in rings.Keys - paths.Keys && next !in rings.Keys - more.Keys;
        SubsetSize(rings.Keys - more.Keys, rings.Keys - paths.Keys);
        paths' := Explore(rings, a, first, more);
      }
    }
  }

  /** An output that every history spends lies in a tight family. */
  lemma CertainIsTight(rings: Rings, a: map<KeyImage, OutputData>, o: OutputData) returns (family: set<KeyImage>)
    requires Assignment(rings, a) && Certain(rings, o)
    ensures Tight(rings, family) && o in Members(rings, family)
  {
    hide Members, SpentBy, Tight, ClosedUnderPaths;
    assert o in Image(a);
    var first :| first in a && a[first] == o;
    assert Path(rings, a, [first]);
    var paths := Explore(rings, a, first, map[first := [first]]);
    family := paths.Keys;
    if k, u :| k in paths && rings[k].Contains(u) && u !in Image(a) {
      var a' := ShiftFrees(rings, a, paths[k], u);
      assert false;
    } else {
      ClosedIsTight(rings, a, family);
      MemberOf(rings, family, first, o);
    }
  }

  lemma ClosedIsTight(rings: Rings, a: map<KeyImage, OutputData>, family: set<KeyImage>)
    requires Assignment(rings, a) && family <= rings.Keys && ClosedUnderPaths(rings, a, family)
    ensures Tight(rings, family)
  {
    hide Members, SpentBy;
    SpentBySize(rings, a, family);
    forall o | o in Members(rings, family) ensures o in SpentBy(a, family) {
      var k := MemberRing(rings, family, o);
    }
    TightIff(rings, a, family);
  }

  lemma TightIsCertain(rings: Rings, family: set<KeyImage>, o: OutputData)
    requires Tight(rings, family) && o in Members(rings, family)
    ensures Certain(rings, o)
  {
    forall a | Assignment(rings, a) ensures o in Image(a) {
      TightIff(rings, a, family);
      assert o in SpentBy(a, family);
    }
  }

  /** Provided there is a consistent history, an output is spent in all of them
      exactly when it lies in a family of as many rings as they have members. */
  lemma CertainIff(rings: Rings, o: OutputData)
    requires exists a :: Assignment(rings, a)
    ensures Certain(rings, o) <==> exists family :: Tight(rings, family) && o in Members(rings, family)
  {
    var a :| Assignment(rings, a);
    if Certain(rings, o) {
      var family := CertainIsTight(rings, a, o);
    }
    forall family | Tight(rings, family) && o in Members(rings, family) ensures Certain(rings, o) {
      TightIsCertain(rings, family, o);
    }
  }

  lemma TightUnion(rings: Rings, a: map<KeyImage, OutputData>, f: set<KeyImage>, g: set<KeyImage>)
    requires Assignment(rings, a) && Tight(rings, f) && Tight(rings, g)
    ensures Tight(rings, f + g)
    ensures Members(rings, f + g) == Members(rings, f) + Members(rings, g)
  {
    hide Tight, Members;
    assert f + g <= rings.Keys by { TightKeys(rings, f); TightKeys(rings, g); }
    TightIff(rings, a, f);
    TightIff(rings, a, g);
    TightIff(rings, a, f + g);
    assert SpentBy(a, f + g) == SpentBy(a, f) + SpentBy(a, g);
    MembersUnion(rings, f, g);
  }

  lemma TightKeys(rings: Rings, family: set<KeyImage>)
    requires Tight(rings, family)
    ensures family <= rings.Keys
  {
  }

  lemma MembersUnion(rings: Rings, f: set<KeyImage>, g: set<KeyImage>)
    ensures Members(rings, f + g) == Members(rings, f) + Members(rings, g)
  {
    hide Ring.Contains;
    forall o | o in Members(rings, f + g) ensures o in Members(rings, f) + Members(rings, g) {
      var k := MemberRing(rings, f + g, o);
      if k in f { MemberOf(rings, f, k, o); } else { MemberOf(rings, g, k, o); }
    }
  }

  // ---- When the rule finds them all ------------------------------------------------------

  /** Some ring of the family has all positions but one in `s`, and that one not. */
  ghost predicate Peels(rings: Rings, family: set<KeyImage>, s: set<OutputData>) {
    exists k, p: nat :: k in family && k in rings && p < |rings[k].members|
      && rings[k].Forced(p, s) && rings[k].Out(p) !in s
  }

  /** Between any two nested tight families with different members the rule makes
      a step: a condition on the rings alone. */
  ghost predicate Peelable(rings: Rings) {
    forall f, g :: Tight(rings, f) && Tight(rings, g) && f <= g && Members(rings, f) != Members(rings, g) ==>
      Peels(rings, g, Members(rings, f))
  }

  lemma MembersInside(rings: Rings, family: set<KeyImage>, s: set<OutputData>)
    requires forall k :: k in family && k in rings ==> rings[k].Inside(s)
    ensures Members(rings, family) <= s
  {
    forall o | o in Members(rings, family) ensures o in s {
      var k := MemberRing(rings, family, o);
      var q: nat :| q < |rings[k].members| && rings[k].members[q] == o.index;
      assert rings[k].Out(q) == o;
    }
  }

  /** A supported set is what the tight family of its rings spends. */
  lemma SupportedIsTight(rings: Rings, s: set<OutputData>, cause: map<OutputData, KeyImage>)
    requires Supported(rings, s, cause)
    ensures Tight(rings, Image(cause)) && Members(rings, Image(cause)) == s
  {
    hide Ring.Inside, Ring.Contains, Members;
    var f := Image(cause);
    ImageSize(cause);
    MembersInside(rings, f, s);
    forall o | o in s ensures o in Members(rings, f) {
      MemberOf(rings, f, cause[o], o);
    }
    assert Members(rings, f) == s == cause.Keys;
    assert f <= rings.Keys;
  }

  lemma ClosedDoesNotPeel(rings: Rings, family: set<KeyImage>, s: set<OutputData>)
    requires Closed(rings, s)
    ensures !Peels(rings, family, s)
  {
  }

  /** With peelable rings, a closed supported set has all certain outputs. */
  lemma PeelableIsComplete(rings: Rings, s: set<OutputData>, cause: map<OutputData, KeyImage>, o: OutputData)
    requires Peelable(rings) && Closed(rings, s) && Supported(rings, s, cause)
    requires exists a :: Assignment(rings, a)
    requires Certain(rings, o)
    ensures o in s
  {
    hide Supported, Closed, Tight, Peels, Certain, Assignment, Members, Image;
    var a :| Assignment(rings, a);
    SupportedIsTight(rings, s, cause);
    var family := CertainIsTight(rings, a, o);
    var f := Image(cause);
    TightUnion(rings, a, f, family);
    ClosedDoesNotPeel(rings, f + family, s);
    assert Members(rings, f) == Members(rings, f + family);
  }

  /** A key image whose ring is not inside a supported set spends outside it. */
  lemma OutsiderSpendsOutside(rings: Rings, s: set<OutputData>, cause: map<OutputData, KeyImage>,
                              a: map<KeyImage, OutputData>, k: KeyImage)
    requires Supported(rings, s, cause) && Assignment(rings, a) && k in rings && !rings[k].Inside(s)
    ensures a[k] !in s
  {
    hide Members, Tight;
    SupportedIsTight(rings, s, cause);
    TightIff(rings, a, Image(cause));
    assert k !in Image(cause);
    assert forall j :: j in Image(cause) && j in a ==> a[j] != a[k];
  }

  /** The ring that forces a new output outside a supported set spends it. */
  lemma ForcedIsSpent(rings: Rings, s: set<OutputData>, cause: map<OutputData, KeyImage>,
                      a: map<KeyImage, OutputData>, k: KeyImage, p: nat)
    requires Supported(rings, s, cause) && Assignment(rings, a)
    requires k in rings && p < |rings[k].members| && rings[k].Forced(p, s) && rings[k].Out(p) !in s
    ensures a[k] == rings[k].Out(p)
  {
    OutsiderSpendsOutside(rings, s, cause, a, k);
    var q: nat :| q < |rings[k].members| && rings[k].members[q] == a[k].index;
    assert rings[k].Out(q) == a[k];
  }

  /** Marking something that `g` has beyond `f` takes a ring of `g` that peels it
      off the members of `f`. */
  lemma EnteringPeels(rings: Rings, s: set<OutputData>, cause: map<OutputData, KeyImage>,
                      a: map<KeyImage, OutputData>, f: set<KeyImage>, g: set<KeyImage>, k: KeyImage, p: nat)
    requires Supported(rings, s, cause) && Assignment(rings, a) && Tight(rings, g)
    requires s * Members(rings, g) <= Members(rings, f)
    requires k in rings && p < |rings[k].members| && rings[k].Forced(p, s) && rings[k].Out(p) !in s
    requires rings[k].Out(p) in Members(rings, g) && rings[k].Out(p) !in Members(rings, f)
    ensures Peels(rings, g, Members(rings, f))
  {
    hide Supported, Members;
    ForcedIsSpent(rings, s, cause, a, k, p);
    TightIff(rings, a, g);
    assert k in g;
    forall q: nat | q < |rings[k].members| && q != p ensures rings[k].Out(q) in Members(rings, f) {
      MemberOf(rings, g, k, rings[k].Out(q));
    }
  }
}
