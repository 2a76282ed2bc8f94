/** The theory behind the second pass of the blackball tool: rings of outputs,
    one per key image, and the rule "all members of a ring but one are spent,
    hence the last one is spent". */
module RingClosure {
  import opened SharedTypes
  import opened RingOffsets

  datatype OutputData = OutputData(amount: U64, index: U64)

  datatype Ring = Ring(amount: U64, members: seq<U64>) {
    function Out(p: nat): OutputData
      requires p < |members|
    {
      OutputData(amount, members[p])
    }

    /** Every position other than `p` holds an output of `s`. */
    ghost predicate Forced(p: nat, s: set<OutputData>)
      requires p < |members|
    {
      forall q: nat :: q < |members| && q != p ==> Out(q) in s
    }

    ghost predicate Inside(s: set<OutputData>) {
      forall q: nat :: q < |members| ==> Out(q) in s
    }

    ghost predicate Contains(o: OutputData) {
      o.amount == amount && o.index in members
    }
  }

  type Rings = map<KeyImage, Ring>

  /** `s` is closed under the inference rule. A ring of one member forces it
      without any premise. */
  ghost predicate Closed(rings: Rings, s: set<OutputData>) {
    forall k, p: nat :: k in rings && p < |rings[k].members| && rings[k].Forced(p, s)
      ==> rings[k].Out(p) in s
  }

  ghost predicate Least(rings: Rings, s: set<OutputData>) {
    && Closed(rings, s)
    && forall t :: Closed(rings, t) ==> s <= t
  }

  lemma LeastIsUnique(rings: Rings, s: set<OutputData>, t: set<OutputData>)
    requires Least(rings, s) && Least(rings, t)
    ensures s == t
  {
  }

  /** A consistent history: each key image spends one member of its ring, and
      no output is spent by two key images. */
  ghost predicate Assignment(rings: Rings, spends: map<KeyImage, OutputData>) {
    && spends.Keys == rings.Keys
    && (forall k :: k in rings ==> rings[k].Contains(spends[k]))
    && forall j, k :: j in spends && k in spends && spends[j] == spends[k] ==> j == k
  }

  /** `cause` is an injection that sends each output of `s` to a key image whose
      ring contains that output and lies wholly inside `s`. */
  ghost predicate Supported(rings: Rings, s: set<OutputData>, cause: map<OutputData, KeyImage>) {
    && cause.Keys == s
    && (forall o :: o in s ==> cause[o] in rings && rings[cause[o]].Contains(o) && rings[cause[o]].Inside(s))
    && forall o, u :: o in s && u in s && cause[o] == cause[u] ==> o == u
  }

  ghost function Image<T, U>(m: map<T, U>): (s: set<U>) {
    set x | x in m :: m[x]
  }

  lemma {:induction false} ImageSize<T, U>(m: map<T, U>)
    requires forall x, y :: x in m && y in m && m[x] == m[y] ==> x == y
    ensures |Image(m)| == |m|
  {
    if m.Keys == {} {
      assert Image(m) == {};
    } else {
      var x :| x in m;
      var rest := m - {x};
      ImageSize(rest);
      assert Image(m) == Image(rest) + {m[x]};
      assert m.Keys == rest.Keys + {x};
    }
  }

  lemma SubsetSize<T>(s: set<T>, t: set<T>)
    requires s <= t
    ensures |s| <= |t|
    ensures |s| == |t| ==> s == t
  {
    assert |t - s| + |s| == |t| by { assert t == (t - s) + s; }
    if |s| == |t| {
      assert t - s == {};
    }
  }

  /** An injective map from a finite set into itself is onto. */
  lemma InjectionIsOnto<T>(m: map<T, T>)
    requires forall x, y :: x in m && y in m && m[x] == m[y] ==> x == y
    requires Image(m) <= m.Keys
    ensures Image(m) == m.Keys
  {
    ImageSize(m);
    SubsetSize(Image(m), m.Keys);
  }

  /** Soundness of a supported set: every consistent history spends all of it. */
  lemma SupportedIsSpent(rings: Rings, s: set<OutputData>, cause: map<OutputData, KeyImage>,
                         spends: map<KeyImage, OutputData>)
    requires Supported(rings, s, cause)
    requires Assignment(rings, spends)
    ensures s <= Image(spends)
  {
    var m := map o | o in s :: spends[cause[o]];
    assert Image(m) <= m.Keys by {
      forall o | o in s ensures m[o] in s {
        var r := rings[cause[o]];
        var p: nat :| p < |r.members| && r.members[p] == spends[cause[o]].index;
        assert r.Out(p) in s;
      }
    }
    InjectionIsOnto(m);
    forall o | o in s ensures o in Image(spends) {
      assert o in Image(m);
    }
  }

  /** A supported set is no larger than the number of key images. */
  lemma SupportedSize(rings: Rings, s: set<OutputData>, cause: map<OutputData, KeyImage>)
    requires Supported(rings, s, cause)
    ensures |s| <= |rings|
  {
    ImageSize(cause);
    SubsetSize(Image(cause), rings.Keys);
  }

  /** Marking one more output by the rule keeps the set supported: the ring
      that forced it cannot have been used before. */
  lemma MarkKeepsSupport(rings: Rings, s: set<OutputData>, cause: map<OutputData, KeyImage>, k: KeyImage, p: nat)
    requires Supported(rings, s, cause)
    requires k in rings && p < |rings[k].members|
    requires rings[k].Forced(p, s) && rings[k].Out(p) !in s
    ensures Supported(rings, s + {rings[k].Out(p)}, cause[rings[k].Out(p) := k])
  {
    var o := rings[k].Out(p);
    var s', cause' := s + {o}, cause[o := k];
    assert cause'.Keys == s';
    assert rings[k].Inside(s');
    forall u | u in s ensures cause[u] != k && rings[cause[u]].Inside(s') {
      assert rings[cause[u]].Inside(s);
      assert !rings[k].Inside(s);
    }
  }

  /** Outputs of one-member rings, the premises every closed set has to hold. */
  ghost predicate OneRingOutput(rings: Rings, o: OutputData) {
    exists k :: k in rings && rings[k] == Ring(o.amount, [o.index])
  }

  /** A set that holds exactly the outputs of the one-member rings is supported. */
  lemma OneRingsSupported(rings: Rings, s: set<OutputData>) returns (cause: map<OutputData, KeyImage>)
    requires forall o :: o in s ==> OneRingOutput(rings, o)
    ensures Supported(rings, s, cause)
  {
    cause := map o | o in s :: (var k :| k in rings && rings[k] == Ring(o.amount, [o.index]); k);
    forall o | o in s ensures rings[cause[o]].Contains(o) && rings[cause[o]].Inside(s) {
      assert rings[cause[o]] == Ring(o.amount, [o.index]);
      assert rings[cause[o]].Out(0) == o;
    }
  }
}
