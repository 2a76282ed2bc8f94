/** Second pass of the blackball tool: the worklist that repeats "all members
    but one are spent" until no new output is found. The hash sets are walked in
    an arbitrary order. */
module BlackballSecondPass {
  import opened SharedTypes
  import opened Lists
  import opened RingOffsets
  import opened RingClosure
  import opened BlackballScanFacts

  type RelativeRings = map<KeyImage, seq<U64>>
  type Index = map<OutputData, set<KeyImage>>

  /** One inference: while handling `trigger`, the ring of `image` showed `out`
      at position `p` to be spent. */
  datatype Inference = Inference(trigger: OutputData, image: KeyImage, p: nat, out: OutputData)

  /** The stored ring of `k` read with the given amount; empty when there is none. */
  function RingAt(rel: RelativeRings, k: KeyImage, amount: U64): (r: Ring) {
    Ring(amount, if k in rel then Absolute(rel[k]) else [])
  }

  ghost predicate Justified(rel: RelativeRings, index: Index, s: set<OutputData>, i: Inference) {
    var r := RingAt(rel, i.image, i.trigger.amount);
    && i.trigger in s && i.image in ImagesAt(index, i.trigger)
    && i.p < |r.members| && r.Forced(i.p, s)
    && i.out == r.Out(i.p) && i.out !in s
  }

  ghost function After(s: set<OutputData>, run: seq<Inference>): (t: set<OutputData>) {
    if run == [] then s else After(s, run[..|run| - 1]) + {run[|run| - 1].out}
  }

  /** Each inference of the run is justified by what was known before it. */
  ghost predicate Legit(rel: RelativeRings, index: Index, s: set<OutputData>, run: seq<Inference>) {
    run == [] ||
    var n := |run| - 1;
    Legit(rel, index, s, run[..n]) && Justified(rel, index, After(s, run[..n]), run[n])
  }

  /** After the first `j` inferences of the run all positions but `p` of the ring
      of `k`, read with amount `a`, are known, and the index leads to that ring
      from the output `od` marked last among these, or from the start. */
  ghost predicate Led(rel: RelativeRings, index: Index, s0: set<OutputData>, run: seq<Inference>,
                      k: KeyImage, a: U64, p: nat, j: nat, od: OutputData)
  {
    && p < |RingAt(rel, k, a).members| && j <= |run|
    && RingAt(rel, k, a).Forced(p, After(s0, run[..j]))
    && (if j == 0 then od in s0 else od == run[j - 1].out)
    && od.amount == a && k in ImagesAt(index, od)
  }

  /** The pass owes the output at position `p`: it is led to, and not marked. */
  ghost predicate Enabled(rel: RelativeRings, index: Index, s0: set<OutputData>, run: seq<Inference>,
                          k: KeyImage, a: U64, p: nat)
  {
    && p < |RingAt(rel, k, a).members| && RingAt(rel, k, a).Out(p) !in After(s0, run)
    && exists j: nat, od :: Led(rel, index, s0, run, k, a, p, j, od)
  }

  /** Some pending output leads to the ring. */
  ghost predicate Waits(index: Index, pending: set<OutputData>, k: KeyImage, a: U64) {
    exists od :: od in pending && od.amount == a && k in ImagesAt(index, od)
  }

  /** No inference is lost: whatever the pass owes has an output still waiting. */
  ghost predicate Waiting(rel: RelativeRings, index: Index, s0: set<OutputData>, run: seq<Inference>,
                          pending: set<OutputData>)
  {
    forall k, a, p :: Enabled(rel, index, s0, run, k, a, p) ==> Waits(index, pending, k, a)
  }

  /** The same while the key images `images` of the output `od` are still to be examined. */
  ghost predicate WaitingOr(rel: RelativeRings, index: Index, s0: set<OutputData>, run: seq<Inference>,
                            pending: set<OutputData>, od: OutputData, images: set<KeyImage>)
  {
    forall k, a, p :: Enabled(rel, index, s0, run, k, a, p) ==>
      Waits(index, pending, k, a) || (k in images && a == od.amount)
  }

  /** The pass owes nothing any more. */
  ghost predicate Exhausted(rel: RelativeRings, index: Index, s0: set<OutputData>, run: seq<Inference>) {
    forall k, a, p :: !Enabled(rel, index, s0, run, k, a, p)
  }

  lemma {:induction false} AfterGrows(s0: set<OutputData>, run: seq<Inference>, j: nat)
    requires j <= |run|
    ensures After(s0, run[..j]) <= After(s0, run)
  {
    if j == |run| {
      assert run[..j] == run;
    } else {
      AfterGrows(s0, run[..|run| - 1], j);
      assert run[..|run| - 1][..j] == run[..j];
    }
  }

  /** When every output of the ring, and `od`, lead to the ring, it does not
      matter which of them was marked last. */
  lemma {:induction false} SomeoneLeads(rel: RelativeRings, index: Index, s0: set<OutputData>, run: seq<Inference>,
                                        k: KeyImage, p: nat, n: nat, od: OutputData)
    requires n <= |run| && p < |RingAt(rel, k, od.amount).members|
    requires RingAt(rel, k, od.amount).Forced(p, After(s0, run[..n])) && od in After(s0, run[..n])
    requires k in ImagesAt(index, od)
    requires forall q: nat :: q < |RingAt(rel, k, od.amount).members| && q != p ==>
      k in ImagesAt(index, RingAt(rel, k, od.amount).Out(q))
    ensures exists j: nat, o :: Led(rel, index, s0, run, k, od.amount, p, j, o)
  {
    var r := RingAt(rel, k, od.amount);
    if n == 0 {
      assert Led(rel, index, s0, run, k, od.amount, p, 0, od);
    } else {
      assert run[..n][..n - 1] == run[..n - 1];
      if r.Forced(p, After(s0, run[..n - 1])) && od in After(s0, run[..n - 1]) {
        SomeoneLeads(rel, index, s0, run, k, p, n - 1, od);
      } else {
        assert Led(rel, index, s0, run, k, od.amount, p, n, run[n - 1].out);
      }
    }
  }

  /** What an exhausted pass has marked: the last unknown member of every ring to
      which all its other members lead, as soon as any marked output leads there. */
  lemma AllIndexedIsMarked(rel: RelativeRings, index: Index, s0: set<OutputData>, run: seq<Inference>,
                           k: KeyImage, p: nat, od: OutputData)
    requires Exhausted(rel, index, s0, run)
    requires p < |RingAt(rel, k, od.amount).members|
    requires RingAt(rel, k, od.amount).Forced(p, After(s0, run)) && od in After(s0, run)
    requires k in ImagesAt(index, od)
    requires forall q: nat :: q < |RingAt(rel, k, od.amount).members| && q != p ==>
      k in ImagesAt(index, RingAt(rel, k, od.amount).Out(q))
    ensures RingAt(rel, k, od.amount).Out(p) in After(s0, run)
  {
    assert run[..|run|] == run;
    SomeoneLeads(rel, index, s0, run, k, p, |run|, od);
    assert !Enabled(rel, index, s0, run, k, od.amount, p);
  }

  // ---- Termination ----------------------------------------------------------------

  ghost function Amounts(s: set<OutputData>): (r: set<U64>) {
    set o | o in s :: o.amount
  }

  ghost function Indices(rel: RelativeRings): (r: set<U64>) {
    set k, x | k in rel && x in Absolute(rel[k]) :: x
  }

  /** All the outputs a run can ever mark. */
  ghost function Universe(rel: RelativeRings, s: set<OutputData>): (u: set<OutputData>) {
    s + set a, x | a in Amounts(s) && x in Indices(rel) :: OutputData(a, x)
  }

  lemma {:induction false} RunStaysInUniverse(rel: RelativeRings, index: Index, s: set<OutputData>, run: seq<Inference>)
    requires Legit(rel, index, s, run)
    ensures forall o :: o in After(s, run) ==> o.amount in Amounts(s)
    ensures After(s, run) <= Universe(rel, s)
  {
    if run != [] {
      var n := |run| - 1;
      RunStaysInUniverse(rel, index, s, run[..n]);
      var i := run[n];
      assert i.image in rel && i.out.index in Absolute(rel[i.image]);
      assert i.out.index in Indices(rel);
      assert i.out == OutputData(i.trigger.amount, i.out.index);
    }
  }

  /** Every inference marks a new output, so a run is never longer than the
      number of outputs still unmarked at its start. */
  lemma {:induction false} RunLength(rel: RelativeRings, index: Index, s: set<OutputData>, run: seq<Inference>)
    requires Legit(rel, index, s, run)
    ensures s <= After(s, run)
    ensures |After(s, run)| == |s| + |run|
    ensures |s| + |run| <= |Universe(rel, s)|
  {
    RunGrows(rel, index, s, run);
    RunStaysInUniverse(rel, index, s, run);
    SubsetSize(After(s, run), Universe(rel, s));
  }

  lemma {:induction false} RunGrows(rel: RelativeRings, index: Index, s: set<OutputData>, run: seq<Inference>)
    requires Legit(rel, index, s, run)
    ensures s <= After(s, run)
    ensures |After(s, run)| == |s| + |run|
  {
    if run != [] {
      RunGrows(rel, index, s, run[..|run| - 1]);
    }
  }

  lemma {:induction false} RunMore(rel: RelativeRings, index: Index, s: set<OutputData>, run: seq<Inference>,
                                   i: Inference)
    requires Legit(rel, index, s, run) && Justified(rel, index, After(s, run), i)
    ensures Legit(rel, index, s, run + [i])
    ensures After(s, run + [i]) == After(s, run) + {i.out}
  {
    assert (run + [i])[..|run|] == run;
  }

  // ---- The loops ---------------------------------------------------------------------

  ghost function UnknownPositions(r: Ring, s: set<OutputData>, n: nat): (u: set<nat>)
    requires n <= |r.members|
  {
    set q: nat | q < n && r.Out(q) !in s
  }

  lemma SoleUnknown(r: Ring, s: set<OutputData>, p: nat)
    requires p < |r.members|
    ensures UnknownPositions(r, s, |r.members|) == {p} <==> r.Out(p) !in s && r.Forced(p, s)
  {
    var u := UnknownPositions(r, s, |r.members|);
    assert forall q: nat :: q in u <==> q < |r.members| && r.Out(q) !in s;
    if u == {p} {
      forall q: nat | q < |r.members| && q != p ensures r.Out(q) in s {
        assert q !in u;
      }
      assert p in u;
    }
  }

  /** The innermost loop: counts the known positions and remembers the last unknown one. */
  method CountKnown(amount: U64, absolute: seq<U64>, spent: set<OutputData>)
    returns (known: nat, lastUnknown: U64, ghost last: nat)
    ensures known == |absolute| - |UnknownPositions(Ring(amount, absolute), spent, |absolute|)|
    ensures known < |absolute| ==>
      && last in UnknownPositions(Ring(amount, absolute), spent, |absolute|)
      && lastUnknown == absolute[last]
  {
    ghost var r := Ring(amount, absolute);
    known := 0;
    lastUnknown := 0;
    last := 0;
    for i := 0 to |absolute|
      invariant known == i - |UnknownPositions(r, spent, i)|
      invariant known < i ==> last in UnknownPositions(r, spent, i) && lastUnknown == absolute[last]
    {
      if OutputData(amount, absolute[i]) in spent {
        known := known + 1;
        assert UnknownPositions(r, spent, i + 1) == UnknownPositions(r, spent, i);
      } else {
        lastUnknown := absolute[i];
        last := i;
        assert UnknownPositions(r, spent, i + 1) == UnknownPositions(r, spent, i) + {i};
      }
    }
  }

  /** What examining the ring of `ki` on behalf of `od` shows: the output at a
      position that is unknown while all the others are known. */
  ghost function Shown(rel: RelativeRings, od: OutputData, ki: KeyImage, s: set<OutputData>): (o: set<OutputData>) {
    var r := RingAt(rel, ki, od.amount);
    set p: nat | p < |r.members| && OnlyUnknown(r, s, p) :: r.Out(p)
  }

  ghost predicate OnlyUnknown(r: Ring, s: set<OutputData>, p: nat) {
    p < |r.members| && r.Forced(p, s) && r.Out(p) !in s
  }

  /** There is at most one such position. */
  lemma ShownAt(rel: RelativeRings, od: OutputData, ki: KeyImage, s: set<OutputData>, p: nat)
    requires OnlyUnknown(RingAt(rel, ki, od.amount), s, p)
    ensures Shown(rel, od, ki, s) == {RingAt(rel, ki, od.amount).Out(p)}
  {
  }

  /** Examines one ring, and finds just what it shows; the initial 0 is never
      mistaken for an output. The comparison is with the size minus one, which
      for an empty ring wraps to a number that `known` never reaches. */
  method Examine(rel: RelativeRings, od: OutputData, ki: KeyImage, spent: set<OutputData>)
    returns (found: bool, out: OutputData)
    ensures Shown(rel, od, ki, spent) == if found then {out} else {}
  {
    var absolute := [];
    if ki in rel {
      absolute := RelativeOutputOffsetsToAbsolute(rel[ki]);
    }
    ghost var r := RingAt(rel, ki, od.amount);
    var known, lastUnknown, last := CountKnown(od.amount, absolute, spent);
    found := known == |absolute| - 1;
    out := OutputData(od.amount, lastUnknown);
    if found {
      SubsetSize({last}, UnknownPositions(r, spent, |absolute|));
      SoleUnknown(r, spent, last);
      ShownAt(rel, od, ki, spent, last);
    } else {
      forall q: nat | q < |r.members| ensures r.Out(q) in spent || !r.Forced(q, spent) {
        SoleUnknown(r, spent, q);
      }
    }
  }

  /** What was led to before the inference `i` and is still owed after it was owed
      before, and is not the ring of `i` read with the same amount. */
  lemma LedBefore(rel: RelativeRings, index: Index, s0: set<OutputData>, run: seq<Inference>, i: Inference,
                  k: KeyImage, a: U64, q: nat, j: nat, o: OutputData)
    requires Justified(rel, index, After(s0, run), i)
    requires Enabled(rel, index, s0, run + [i], k, a, q)
    requires j <= |run| && Led(rel, index, s0, run + [i], k, a, q, j, o)
    ensures Enabled(rel, index, s0, run, k, a, q)
    ensures k != i.image || a != i.trigger.amount
  {
    assert (run + [i])[..|run|] == run;
    assert (run + [i])[..j] == run[..j];
    assert Led(rel, index, s0, run, k, a, q, j, o);
    AfterGrows(s0, run, j);
    assert RingAt(rel, k, a).Forced(q, After(s0, run));
  }

  /** After a ring was examined it can be struck off, and what the new mark
      leads to has that mark waiting. */
  lemma FoundKeepsWaiting(rel: RelativeRings, index: Index, s0: set<OutputData>, run: seq<Inference>,
                          pending: set<OutputData>, od: OutputData, images: set<KeyImage>, i: Inference)
    requires WaitingOr(rel, index, s0, run, pending, od, images)
    requires Justified(rel, index, After(s0, run), i) && i.trigger == od
    ensures WaitingOr(rel, index, s0, run + [i], pending + {i.out}, od, images - {i.image})
  {
    var run', pending' := run + [i], pending + {i.out};
    assert run'[..|run|] == run;
    forall k, a, q | Enabled(rel, index, s0, run', k, a, q)
      ensures Waits(index, pending', k, a) || (k in images - {i.image} && a == od.amount)
    {
      var j: nat, o :| Led(rel, index, s0, run', k, a, q, j, o);
      if j == |run'| {
        assert o in pending';
      } else {
        LedBefore(rel, index, s0, run, i, k, a, q, j, o);
        if Waits(index, pending, k, a) {
          var w :| w in pending && w.amount == a && k in ImagesAt(index, w);
          assert w in pending';
        }
      }
    }
  }

  lemma NothingShown(rel: RelativeRings, od: OutputData, ki: KeyImage, s: set<OutputData>, q: nat)
    requires Shown(rel, od, ki, s) == {}
    ensures !OnlyUnknown(RingAt(rel, ki, od.amount), s, q)
  {
    var r := RingAt(rel, ki, od.amount);
    if OnlyUnknown(r, s, q) {
      ShownAt(rel, od, ki, s, q);
    }
  }

  lemma NothingFoundKeepsWaiting(rel: RelativeRings, index: Index, s0: set<OutputData>, run: seq<Inference>,
                                 pending: set<OutputData>, od: OutputData, images: set<KeyImage>, ki: KeyImage)
    requires WaitingOr(rel, index, s0, run, pending, od, images)
    requires Shown(rel, od, ki, After(s0, run)) == {}
    ensures WaitingOr(rel, index, s0, run, pending, od, images - {ki})
  {
    forall k, a, q | Enabled(rel, index, s0, run, k, a, q)
      ensures Waits(index, pending, k, a) || (k in images - {ki} && a == od.amount)
    {
      var j: nat, o :| Led(rel, index, s0, run, k, a, q, j, o);
      AfterGrows(s0, run, j);
      assert RingAt(rel, k, a).Forced(q, After(s0, run));
      NothingShown(rel, od, ki, After(s0, run), q);
    }
  }

  /** Taking `od` from the pending outputs leaves its key images to be examined. */
  lemma TakeKeepsWaiting(rel: RelativeRings, index: Index, s0: set<OutputData>, run: seq<Inference>,
                         pending: set<OutputData>, od: OutputData)
    requires Waiting(rel, index, s0, run, pending + {od})
    ensures WaitingOr(rel, index, s0, run, pending, od, ImagesAt(index, od))
  {
    forall k, a, p | Enabled(rel, index, s0, run, k, a, p)
      ensures Waits(index, pending, k, a) || (k in ImagesAt(index, od) && a == od.amount)
    {
      var w :| w in pending + {od} && w.amount == a && k in ImagesAt(index, w);
    }
  }

  lemma FewerImages(rel: RelativeRings, index: Index, s0: set<OutputData>, run: seq<Inference>,
                    pending: set<OutputData>, od: OutputData, images: set<KeyImage>, more: set<KeyImage>)
    requires WaitingOr(rel, index, s0, run, pending, od, images) && images <= more
    ensures WaitingOr(rel, index, s0, run, pending, od, more)
    ensures images == {} ==> Waiting(rel, index, s0, run, pending)
  {
  }

  // ---- Executions, in a given order ------------------------------------------------------

  /** What is marked, and what of it was found in the current turn. */
  datatype Progress = Progress(spent: set<OutputData>, newlySpent: set<OutputData>) {
    ghost function Mark(outs: set<OutputData>): (g: Progress) {
      Progress(spent + outs, newlySpent + outs)
    }
  }

  /** An output to be handled, and the order in which its key images are examined. */
  datatype Visit = Visit(od: OutputData, images: seq<KeyImage>)

  /** After the key images were examined in order on behalf of `od`. */
  ghost function Visited(rel: RelativeRings, od: OutputData, images: seq<KeyImage>, g: Progress): (r: Progress) {
    if images == [] then g
    else
      var n := |images| - 1;
      var h := Visited(rel, od, images[..n], g);
      h.Mark(Shown(rel, od, images[n], h.spent))
  }

  /** After the outputs were handled in order. */
  ghost function Handled(rel: RelativeRings, visits: seq<Visit>, g: Progress): (r: Progress) {
    if visits == [] then g
    else
      var n := |visits| - 1;
      Visited(rel, visits[n].od, visits[n].images, Handled(rel, visits[..n], g))
  }

  /** After a sequence of turns; each starts with nothing found. */
  ghost function Passed(rel: RelativeRings, turns: seq<seq<Visit>>, g: Progress): (r: Progress) {
    if turns == [] then g
    else
      var n := |turns| - 1;
      Handled(rel, turns[n], Passed(rel, turns[..n], g).(newlySpent := {}))
  }

  function Outs(visits: seq<Visit>): (s: seq<OutputData>) {
    seq(|visits|, i requires 0 <= i < |visits| => visits[i].od)
  }

  /** A walk through the hash set `work`: each output is handled once, and for each
      of them every key image that the index lists is examined once. */
  ghost predicate Walk(index: Index, visits: seq<Visit>, work: set<OutputData>) {
    && Enumerates(Outs(visits), work)
    && forall v :: v in visits ==> Enumerates(v.images, ImagesAt(index, v.od))
  }

  /** Each turn walks through what the turn before it found, as long as that is anything. */
  ghost predicate Turns(rel: RelativeRings, index: Index, turns: seq<seq<Visit>>, g: Progress) {
    turns == [] ||
    var n := |turns| - 1;
    var work := Passed(rel, turns[..n], g).newlySpent;
    Turns(rel, index, turns[..n], g) && work != {} && Walk(index, turns[n], work)
  }

  /** The pass started with `s0` ends with `spent` when it works in the order `turns`. */
  ghost predicate Executes(rel: RelativeRings, index: Index, s0: set<OutputData>, spent: set<OutputData>,
                           turns: seq<seq<Visit>>)
  {
    Turns(rel, index, turns, Progress(s0, s0)) && Passed(rel, turns, Progress(s0, s0)) == Progress(spent, {})
  }

  // ---- What every execution keeps ----------------------------------------------------------

  ghost predicate Follows(rel: RelativeRings, index: Index, s0: set<OutputData>, run: seq<Inference>, g: Progress) {
    && Legit(rel, index, s0, run)
    && g.spent == After(s0, run)
    && g.newlySpent <= g.spent
  }

  /** From `g0` to `g` nothing happened, or something new was marked. */
  ghost predicate Advances(g0: Progress, g: Progress) {
    g0.spent <= g.spent && (g == g0 || (g.newlySpent != {} && g0.spent < g.spent))
  }

  /** Examining one ring strikes it off, whether or not it shows an output. */
  lemma ExamineKeepsWaiting(rel: RelativeRings, index: Index, s0: set<OutputData>, run0: seq<Inference>, g: Progress,
                            work: set<OutputData>, od: OutputData, images: set<KeyImage>, ki: KeyImage)
    returns (run: seq<Inference>)
    requires Follows(rel, index, s0, run0, g) && od in g.spent && ki in ImagesAt(index, od)
    requires WaitingOr(rel, index, s0, run0, g.newlySpent + work, od, images)
    ensures var h := g.Mark(Shown(rel, od, ki, g.spent));
      && Follows(rel, index, s0, run, h) && Advances(g, h)
      && WaitingOr(rel, index, s0, run, h.newlySpent + work, od, images - {ki})
  {
    hide Legit, After, WaitingOr;
    var shown := Shown(rel, od, ki, g.spent);
    if p: nat :| OnlyUnknown(RingAt(rel, ki, od.amount), g.spent, p) {
      var i := Inference(od, ki, p, RingAt(rel, ki, od.amount).Out(p));
      ShownAt(rel, od, ki, g.spent, p);
      FoundKeepsWaiting(rel, index, s0, run0, g.newlySpent + work, od, images, i);
      RunMore(rel, index, s0, run0, i);
      assert g.newlySpent + work + {i.out} == g.newlySpent + shown + work;
      run := run0 + [i];
    } else {
      assert shown == {};
      NothingFoundKeepsWaiting(rel, index, s0, run0, g.newlySpent + work, od, images, ki);
      assert g.Mark(shown) == g;
      run := run0;
    }
  }

  /** While the key images of `od` are examined, every inference that is owed has a
      member waiting or its ring still to be examined. */
  lemma {:induction false} VisitKeepsWaiting(rel: RelativeRings, index: Index, s0: set<OutputData>,
                                             run0: seq<Inference>, g0: Progress, work: set<OutputData>,
                                             v: Visit, n: nat)
    returns (run: seq<Inference>)
    requires Follows(rel, index, s0, run0, g0) && v.od in g0.spent
    requires Waiting(rel, index, s0, run0, g0.newlySpent + work + {v.od})
    requires Elements(v.images) == ImagesAt(index, v.od) && n <= |v.images|
    ensures var g := Visited(rel, v.od, v.images[..n], g0);
      && Follows(rel, index, s0, run, g) && Advances(g0, g)
      && WaitingOr(rel, index, s0, run, g.newlySpent + work, v.od, Elements(v.images[n..]))
  {
    hide Legit, After, Waiting, WaitingOr, Shown;
    if n == 0 {
      run := run0;
      TakeKeepsWaiting(rel, index, s0, run, g0.newlySpent + work, v.od);
      assert v.images[0..] == v.images;
    } else {
      run := VisitKeepsWaiting(rel, index, s0, run0, g0, work, v, n - 1);
      var ki := v.images[n - 1];
      assert v.images[..n][..n - 1] == v.images[..n - 1];
      assert ki in Elements(v.images);
      assert v.images[n - 1..] == [ki] + v.images[n..];
      var g := Visited(rel, v.od, v.images[..n - 1], g0);
      run := ExamineKeepsWaiting(rel, index, s0, run, g, work, v.od, Elements(v.images[n - 1..]), ki);
      FewerImages(rel, index, s0, run, g.Mark(Shown(rel, v.od, ki, g.spent)).newlySpent + work, v.od,
                  Elements(v.images[n - 1..]) - {ki}, Elements(v.images[n..]));
    }
  }

  /** During a turn, what is owed has a member waiting among the outputs found in
      this turn and those still to be handled. */
  lemma {:induction false} HandlingKeepsWaiting(rel: RelativeRings, index: Index, s0: set<OutputData>,
                                                run0: seq<Inference>, g0: Progress, visits: seq<Visit>, n: nat)
    returns (run: seq<Inference>)
    requires Follows(rel, index, s0, run0, g0.(newlySpent := {})) && Elements(Outs(visits)) <= g0.spent
    requires Waiting(rel, index, s0, run0, Elements(Outs(visits)))
    requires forall v :: v in visits ==> Elements(v.images) == ImagesAt(index, v.od)
    requires n <= |visits|
    ensures var g := Handled(rel, visits[..n], g0.(newlySpent := {}));
      && Follows(rel, index, s0, run, g) && Advances(g0.(newlySpent := {}), g)
      && Waiting(rel, index, s0, run, g.newlySpent + Elements(Outs(visits[n..])))
  {
    hide Legit, After, Waiting, Visited;
    if n == 0 {
      run := run0;
      assert visits[0..] == visits && {} + Elements(Outs(visits)) == Elements(Outs(visits));
    } else {
      run := HandlingKeepsWaiting(rel, index, s0, run0, g0, visits, n - 1);
      var v := visits[n - 1];
      assert visits[..n][..n - 1] == visits[..n - 1];
      var g := Handled(rel, visits[..n - 1], g0.(newlySpent := {}));
      var rest := Elements(Outs(visits[n..]));
      assert Outs(visits[n - 1..]) == [v.od] + Outs(visits[n..]);
      assert g.newlySpent + Elements(Outs(visits[n - 1..])) == g.newlySpent + rest + {v.od};
      assert v.od == Outs(visits)[n - 1];
      run := VisitKeepsWaiting(rel, index, s0, run, g, rest, v, |v.images|);
      assert v.images[..|v.images|] == v.images && v.images[|v.images|..] == [];
      FewerImages(rel, index, s0, run, Visited(rel, v.od, v.images, g).newlySpent + rest, v.od, {}, {});
    }
  }

  /** One turn: what is owed has a member waiting among the outputs it found, and
      it found nothing or marked something new. */
  lemma TurnKeepsWaiting(rel: RelativeRings, index: Index, s0: set<OutputData>, run0: seq<Inference>, g0: Progress,
                         visits: seq<Visit>)
    returns (run: seq<Inference>)
    requires Follows(rel, index, s0, run0, g0) && Waiting(rel, index, s0, run0, g0.newlySpent)
    requires Walk(index, visits, g0.newlySpent)
    ensures var g := Handled(rel, visits, g0.(newlySpent := {}));
      && Follows(rel, index, s0, run, g) && Waiting(rel, index, s0, run, g.newlySpent)
      && g0.spent <= g.spent && (g.newlySpent == {} || g0.spent < g.spent)
  {
    hide Legit, After, Waiting, Handled;
    run := HandlingKeepsWaiting(rel, index, s0, run0, g0, visits, |visits|);
    assert visits[..|visits|] == visits && Outs(visits[|visits|..]) == [];
    var g := Handled(rel, visits, g0.(newlySpent := {}));
    assert g.newlySpent + Elements(Outs(visits[|visits|..])) == g.newlySpent;
  }

  /** Every execution makes a run of justified inferences, and leaves none that
      the index leads to. */
  lemma {:induction false} ExecutionIsRun(rel: RelativeRings, index: Index, s0: set<OutputData>,
                                          turns: seq<seq<Visit>>)
    returns (run: seq<Inference>)
    requires Turns(rel, index, turns, Progress(s0, s0))
    ensures var g := Passed(rel, turns, Progress(s0, s0));
      && Follows(rel, index, s0, run, g) && Waiting(rel, index, s0, run, g.newlySpent)
      && (g.newlySpent == {} ==> Exhausted(rel, index, s0, run))
  {
    hide Waiting, Exhausted, Handled, Walk;
    if turns == [] {
      run := [];
      AllPending(rel, index, s0);
    } else {
      var n := |turns| - 1;
      run := ExecutionIsRun(rel, index, s0, turns[..n]);
      run := TurnKeepsWaiting(rel, index, s0, run, Passed(rel, turns[..n], Progress(s0, s0)), turns[n]);
    }
    if Passed(rel, turns, Progress(s0, s0)).newlySpent == {} {
      NonePending(rel, index, s0, run);
    }
  }

  lemma AllPending(rel: RelativeRings, index: Index, s0: set<OutputData>)
    ensures Waiting(rel, index, s0, [], s0)
  {
    forall k, a, p | Enabled(rel, index, s0, [], k, a, p) ensures Waits(index, s0, k, a) {
      var j: nat, od :| Led(rel, index, s0, [], k, a, p, j, od);
      assert od in s0;
    }
  }

  lemma NonePending(rel: RelativeRings, index: Index, s0: set<OutputData>, run: seq<Inference>)
    requires Waiting(rel, index, s0, run, {})
    ensures Exhausted(rel, index, s0, run)
  {
  }

  // ---- The outer loops ---------------------------------------------------------------------

  /** The loop over the key images that the index lists for `od`. */
  method HandleOutput(rel: RelativeRings, index: Index, od: OutputData, g0: Progress)
    returns (g: Progress, ghost v: Visit)
    ensures v.od == od && Enumerates(v.images, ImagesAt(index, od))
    ensures g == Visited(rel, od, v.images, g0)
  {
    hide Shown, Enumerates, Visited;
    ghost var order := [];
    g := g0;
    var images := if od in index then index[od] else {};
    NoneVisited(rel, od, g0, ImagesAt(index, od));
    while images != {}
      invariant images <= ImagesAt(index, od) && Enumerates(order, ImagesAt(index, od) - images)
      invariant g == Visited(rel, od, order, g0)
    {
      var ki :| ki in images;
      var found, out := Examine(rel, od, ki, g.spent);
      EnumeratesMore(order, ImagesAt(index, od), images, ki);
      VisitedMore(rel, od, order, ki, g0);
      order := order + [ki];
      images := images - {ki};
      if found {
        g := Progress(g.spent + {out}, g.newlySpent + {out});
      }
    }
    assert ImagesAt(index, od) - {} == ImagesAt(index, od);
    v := Visit(od, order);
  }

  lemma NoneVisited(rel: RelativeRings, od: OutputData, g: Progress, images: set<KeyImage>)
    ensures Visited(rel, od, [], g) == g && Enumerates([], images - images)
  {
  }

  lemma VisitedMore(rel: RelativeRings, od: OutputData, images: seq<KeyImage>, ki: KeyImage, g: Progress)
    ensures var h := Visited(rel, od, images, g);
      Visited(rel, od, images + [ki], g) == h.Mark(Shown(rel, od, ki, h.spent))
  {
    assert (images + [ki])[..|images|] == images;
  }

  /** One turn of the outer loop: handles every output found by the turn before. */
  method HandleWork(rel: RelativeRings, index: Index, g0: Progress) returns (g: Progress, ghost visits: seq<Visit>)
    ensures Walk(index, visits, g0.newlySpent)
    ensures g == Handled(rel, visits, g0.(newlySpent := {}))
  {
    hide Visited, Enumerates;
    var work := g0.newlySpent;
    g, visits := g0.(newlySpent := {}), [];
    assert Enumerates(Outs([]), work - work) by { NoneListed(work); }
    while work != {}
      invariant work <= g0.newlySpent && Walk(index, visits, g0.newlySpent - work)
      invariant g == Handled(rel, visits, g0.(newlySpent := {}))
    {
      var od :| od in work;
      ghost var v;
      g, v := HandleOutput(rel, index, od, g);
      EnumeratesMore(Outs(visits), g0.newlySpent, work, od);
      assert Outs(visits + [v]) == Outs(visits) + [od];
      assert (visits + [v])[..|visits|] == visits;
      visits := visits + [v];
      work := work - {od};
    }
    assert g0.newlySpent - {} == g0.newlySpent;
  }

  lemma NoneListed(work: set<OutputData>)
    ensures Enumerates(Outs([]), work - work)
  {
  }

  /** The whole second pass, for any rings, index and starting set. It ends, and
      is the execution in the order in which it met the members of its hash sets. */
  method SecondPass(rel: RelativeRings, index: Index, spent0: set<OutputData>, newlySpent0: set<OutputData>)
    returns (spent: set<OutputData>, ghost turns: seq<seq<Visit>>)
    requires newlySpent0 == spent0  // the scan inserts into both or into neither
    ensures Executes(rel, index, spent0, spent, turns)
  {
    hide Waiting, Exhausted, Handled, Walk, Legit;
    var g := Progress(spent0, newlySpent0);
    turns := [];
    ghost var run := [];
    AllPending(rel, index, spent0);
    assert Legit(rel, index, spent0, []) by { EmptyIsLegit(rel, index, spent0); }
    while g.newlySpent != {}
      invariant Follows(rel, index, spent0, run, g) && Waiting(rel, index, spent0, run, g.newlySpent)
      invariant Turns(rel, index, turns, Progress(spent0, spent0)) && g == Passed(rel, turns, Progress(spent0, spent0))
      decreases |Universe(rel, spent0) - g.spent|, g.newlySpent != {}
    {
      ghost var g0 := g;
      ghost var visits;
      g, visits := HandleWork(rel, index, g);
      run := TurnKeepsWaiting(rel, index, spent0, run, g0, visits);
      assert (turns + [visits])[..|turns|] == turns;
      turns := turns + [visits];
      RunStaysInUniverse(rel, index, spent0, run);
      SubsetSize(Universe(rel, spent0) - g.spent, Universe(rel, spent0) - g0.spent);
    }
    spent := g.spent;
  }

  lemma EmptyIsLegit(rel: RelativeRings, index: Index, s: set<OutputData>)
    ensures Legit(rel, index, s, []) && After(s, []) == s
  {
  }
}
