/** The blackball tool as a whole, and what its result means. */
module Blackball {
  import opened SharedTypes
  import opened RingOffsets
  import opened RingClosure
  import opened BlackballScan
  import opened BlackballScanFacts
  import opened BlackballSecondPass
  import opened Permutations

  // ---- Facts about every run of the second pass ----------------------------------

  /** The stored offsets and the index agree with `rings`: the offsets give the
      members, and the index leads to a ring only through its own amount. */
  ghost predicate Agrees(rel: RelativeRings, index: Index, rings: Rings) {
    && Stores(rel, rings)
    && forall od, k :: k in ImagesAt(index, od) ==> k in rings && rings[k].amount == od.amount
  }

  lemma JustifiedMeansForced(rel: RelativeRings, index: Index, rings: Rings, s: set<OutputData>, i: Inference)
    requires Agrees(rel, index, rings) && Justified(rel, index, s, i)
    ensures i.image in rings && i.p < |rings[i.image].members|
    ensures rings[i.image].Forced(i.p, s) && i.out == rings[i.image].Out(i.p) && i.out !in s
  {
    assert RingAt(rel, i.image, i.trigger.amount) == rings[i.image];
  }

  /** At every step of every run there is an injection from the marked outputs
      into the key images, sending each to a ring inside the marked set. */
  lemma {:induction false} RunKeepsSupport(rel: RelativeRings, index: Index, rings: Rings, s: set<OutputData>,
                                           cause: map<OutputData, KeyImage>, run: seq<Inference>)
    returns (cause': map<OutputData, KeyImage>)
    requires Agrees(rel, index, rings) && Legit(rel, index, s, run) && Supported(rings, s, cause)
    ensures Supported(rings, After(s, run), cause')
  {
    if run == [] {
      cause' := cause;
    } else {
      var n := |run| - 1;
      var c := RunKeepsSupport(rel, index, rings, s, cause, run[..n]);
      JustifiedMeansForced(rel, index, rings, After(s, run[..n]), run[n]);
      MarkKeepsSupport(rings, After(s, run[..n]), c, run[n].image, run[n].p);
      cause' := c[run[n].out := run[n].image];
    }
  }

  /** A run never leaves a closed set. */
  lemma {:induction false} RunStaysInClosed(rel: RelativeRings, index: Index, rings: Rings, s: set<OutputData>,
                                            run: seq<Inference>, t: set<OutputData>)
    requires Agrees(rel, index, rings) && Legit(rel, index, s, run)
    requires Closed(rings, t) && s <= t
    ensures After(s, run) <= t
  {
    if run != [] {
      var n := |run| - 1;
      RunStaysInClosed(rel, index, rings, s, run[..n], t);
      JustifiedMeansForced(rel, index, rings, After(s, run[..n]), run[n]);
      assert rings[run[n].image].Forced(run[n].p, t);
    }
  }

  /** With a complete index, a set with nothing left to infer is closed. */
  lemma ExhaustedIsClosed(rel: RelativeRings, index: Index, rings: Rings, s0: set<OutputData>, run: seq<Inference>)
    requires Stores(rel, rings) && Indexed(rings, index) && Exhausted(rel, index, s0, run)
    requires forall o :: OneRingOutput(rings, o) ==> o in After(s0, run)
    ensures Closed(rings, After(s0, run))
  {
    var s := After(s0, run);
    forall k, p: nat | k in rings && p < |rings[k].members| && rings[k].Forced(p, s)
      ensures rings[k].Out(p) in s
    {
      var r := rings[k];
      assert RingAt(rel, k, r.amount) == r;
      if |r.members| == 1 {
        assert r == Ring(r.Out(p).amount, [r.Out(p).index]);
      } else {
        forall q: nat | q < |r.members| ensures k in ImagesAt(index, r.Out(q)) {
          assert r.Contains(r.Out(q));
        }
        AllIndexedIsMarked(rel, index, s0, run, k, p, r.Out(if p == 0 then 1 else 0));
      }
    }
  }

  lemma OneRingsInClosed(rings: Rings, t: set<OutputData>)
    requires Closed(rings, t)
    ensures forall o :: OneRingOutput(rings, o) ==> o in t
  {
    forall o | OneRingOutput(rings, o) ensures o in t {
      var k :| k in rings && rings[k] == Ring(o.amount, [o.index]);
      assert rings[k].Forced(0, t);
    }
  }

  // ---- One database ------------------------------------------------------------------

  /** `spent` is what the inferences `run`, each justified by what was known before
      it, make of the scanned state, and the index leads to no other. Every
      execution of the second pass makes such a run (ExecutionYields). Not every
      such run is an execution, which handles each output only once. */
  ghost predicate YieldsBy(st: Scan, spent: set<OutputData>, run: seq<Inference>) {
    && Legit(st.relativeRings, st.outputs, st.spent, run) && spent == After(st.spent, run)
    && Exhausted(st.relativeRings, st.outputs, st.spent, run)
  }

  ghost predicate Yields(st: Scan, spent: set<OutputData>) {
    exists run :: YieldsBy(st, spent, run)
  }

  /** The second pass on the scanned state, working in the order `turns`. */
  ghost predicate ExecutesOn(st: Scan, spent: set<OutputData>, turns: seq<seq<Visit>>) {
    Executes(st.relativeRings, st.outputs, st.spent, spent, turns)
  }

  lemma ExecutionYields(st: Scan, spent: set<OutputData>, turns: seq<seq<Visit>>) returns (run: seq<Inference>)
    requires ExecutesOn(st, spent, turns)
    ensures YieldsBy(st, spent, run)
  {
    run := ExecutionIsRun(st.relativeRings, st.outputs, st.spent, turns);
  }

  lemma SingleResult(spends: seq<Spend>, run: seq<Inference>, spent: set<OutputData>)
    returns (cause: map<OutputData, KeyImage>)
    requires UniqueImages(spends) && YieldsBy(ScanAll(spends), spent, run)
    ensures Least(RingsOf(spends), spent)
    ensures Supported(RingsOf(spends), spent, cause)
  {
    var st, rings := ScanAll(spends), RingsOf(spends);
    SingleScan(spends);
    hide ScanAll, RingsOf, Legit, After, Exhausted;
    RunGrows(st.relativeRings, st.outputs, st.spent, run);
    ExhaustedIsClosed(st.relativeRings, st.outputs, rings, st.spent, run);
    forall t | Closed(rings, t) ensures spent <= t {
      OneRingsInClosed(rings, t);
      RunStaysInClosed(st.relativeRings, st.outputs, rings, st.spent, run, t);
    }
    cause := OneRingsSupported(rings, st.spent);
    cause := RunKeepsSupport(st.relativeRings, st.outputs, rings, st.spent, cause, run);
  }

  // ---- Any number of databases ----------------------------------------------------------

  lemma RingHoldsTruth(st: Scan, truth: map<KeyImage, OutputData>, i: Inference, s: set<OutputData>) returns (q: nat)
    requires KeepsTruth(st, truth) && Justified(st.relativeRings, st.outputs, s, i)
    ensures i.image in truth && q < |RingAt(st.relativeRings, i.image, i.trigger.amount).members|
    ensures RingAt(st.relativeRings, i.image, i.trigger.amount).Out(q) == truth[i.image]
  {
    var r := RingAt(st.relativeRings, i.image, i.trigger.amount);
    q :| q < |r.members| && r.members[q] == truth[i.image].index;
  }

  /** An inference, in whatever state, marks the true spend of its key image
      exactly when that was not marked before. */
  lemma InferenceIsTrueIff(st: Scan, truth: map<KeyImage, OutputData>, s: set<OutputData>, i: Inference)
    requires KeepsTruth(st, truth) && Justified(st.relativeRings, st.outputs, s, i)
    ensures i.image in truth
    ensures i.out == truth[i.image] <==> truth[i.image] !in s
  {
    var q := RingHoldsTruth(st, truth, i, s);
  }

  /** Inference `n` of the run is from a ring whose own spend is already marked. */
  ghost predicate Idle(st: Scan, truth: map<KeyImage, OutputData>, run: seq<Inference>, n: nat)
    requires n < |run|
  {
    run[n].image in truth && truth[run[n].image] in After(st.spent, run[..n])
  }

  ghost predicate IdleAreTrue(st: Scan, truth: map<KeyImage, OutputData>, run: seq<Inference>) {
    forall n: nat :: n < |run| && Idle(st, truth, run, n) ==> run[n].out in Image(truth)
  }

  lemma IdleMore(st: Scan, truth: map<KeyImage, OutputData>, run: seq<Inference>)
    requires run != []
    ensures var n := |run| - 1;
      IdleAreTrue(st, truth, run) <==>
        IdleAreTrue(st, truth, run[..n]) && (Idle(st, truth, run, n) ==> run[n].out in Image(truth))
  {
    var n := |run| - 1;
    assert forall m: nat :: m < n ==> run[..n][..m] == run[..m];
    assert forall m: nat :: m < n ==> (Idle(st, truth, run, m) <==> Idle(st, truth, run[..n], m));
  }

  /** A run stays within the true spends exactly when each inference from a ring
      whose own spend is already marked happens to mark another true spend. */
  lemma {:induction false} RunIsSoundIff(st: Scan, truth: map<KeyImage, OutputData>, run: seq<Inference>)
    requires KeepsTruth(st, truth) && Legit(st.relativeRings, st.outputs, st.spent, run)
    ensures After(st.spent, run) <= Image(truth) <==> IdleAreTrue(st, truth, run)
  {
    if run != [] {
      var n := |run| - 1;
      RunIsSoundIff(st, truth, run[..n]);
      BusyIsTrue(st, truth, run);
      IdleMore(st, truth, run);
      hide KeepsTruth, Legit, Idle, IdleAreTrue, Image;
    } else {
      hide Image;
      assert After(st.spent, run) <= Image(truth) by { ScanWithinTruth(st, truth); }
    }
  }

  lemma ScanWithinTruth(st: Scan, truth: map<KeyImage, OutputData>)
    requires KeepsTruth(st, truth)
    ensures st.spent <= Image(truth)
  {
  }

  lemma BusyIsTrue(st: Scan, truth: map<KeyImage, OutputData>, run: seq<Inference>)
    requires KeepsTruth(st, truth) && Legit(st.relativeRings, st.outputs, st.spent, run) && run != []
    ensures !Idle(st, truth, run, |run| - 1) ==> run[|run| - 1].out in Image(truth)
  {
    hide KeepsTruth;
    var n := |run| - 1;
    InferenceIsTrueIff(st, truth, After(st.spent, run[..n]), run[n]);
  }

  /** No inference of the run is from a key image that the scan had resolved: a
      test that the tool could make where it compares the counts. */
  ghost predicate Avoids(run: seq<Inference>, resolved: set<KeyImage>) {
    forall i :: i in run ==> i.image !in resolved
  }

  /** A key image whose true spend is marked is resolved or has its ring inside
      the marked set. */
  ghost predicate InsideUnless(st: Scan, truth: map<KeyImage, OutputData>, s: set<OutputData>, resolved: set<KeyImage>)
    requires KeepsTruth(st, truth)
  {
    forall k :: k in st.relativeRings && truth[k] in s && k !in resolved ==>
      RingAt(st.relativeRings, k, truth[k].amount).Inside(s)
  }

  lemma InferenceKeepsInside(st: Scan, truth: map<KeyImage, OutputData>, s: set<OutputData>, resolved: set<KeyImage>,
                             i: Inference)
    requires KeepsTruth(st, truth) && Injective(truth) && InsideUnless(st, truth, s, resolved)
    requires Justified(st.relativeRings, st.outputs, s, i) && i.image !in resolved
    ensures i.image in truth && i.out == truth[i.image]
    ensures InsideUnless(st, truth, s + {i.out}, resolved)
  {
    InferenceIsTrueIff(st, truth, s, i);
    var r := RingAt(st.relativeRings, i.image, i.trigger.amount);
    assert truth[i.image] !in s;
    assert r.Inside(s + {i.out});
    forall k | k in st.relativeRings && truth[k] in s + {i.out} && k !in resolved
      ensures RingAt(st.relativeRings, k, truth[k].amount).Inside(s + {i.out})
    {
      if truth[k] in s {
        assert RingAt(st.relativeRings, k, truth[k].amount).Inside(s);
      } else {
        assert k == i.image;
      }
    }
  }

  /** Along a run that avoids the resolved key images every inference marks the
      true spend of its key image, whatever the history. */
  lemma {:induction false} AvoidingRunIsTrue(spends: seq<Spend>, truth: map<KeyImage, OutputData>, run: seq<Inference>)
    requires History(spends, truth) && KeepsTruth(ScanAll(spends), truth)
    requires Legit(ScanAll(spends).relativeRings, ScanAll(spends).outputs, ScanAll(spends).spent, run)
    requires Avoids(run, ResolvedImages(spends))
    ensures After(ScanAll(spends).spent, run) <= Image(truth)
    ensures InsideUnless(ScanAll(spends), truth, After(ScanAll(spends).spent, run), ResolvedImages(spends))
  {
    var st := ScanAll(spends);
    if run == [] {
      ScanMarksSoleOrResolved(spends, truth);
      forall k | k in st.relativeRings && truth[k] in st.spent && k !in ResolvedImages(spends)
        ensures RingAt(st.relativeRings, k, truth[k].amount).Inside(st.spent)
      {
        assert Absolute(st.relativeRings[k]) == [truth[k].index];
        assert RingAt(st.relativeRings, k, truth[k].amount).Out(0) == truth[k];
      }
    } else {
      var n := |run| - 1;
      assert forall i :: i in run[..n] ==> i in run;
      AvoidingRunIsTrue(spends, truth, run[..n]);
      assert run[n] in run;
      InferenceKeepsInside(st, truth, After(st.spent, run[..n]), ResolvedImages(spends), run[n]);
    }
  }

  /** The first inference from a resolved key image is exactly the first one that
      does not mark the spend of its key image: for every history, after a run
      that avoids these. */
  lemma FirstUnbacked(spends: seq<Spend>, truth: map<KeyImage, OutputData>, run: seq<Inference>, i: Inference)
    requires History(spends, truth)
    requires Legit(ScanAll(spends).relativeRings, ScanAll(spends).outputs, ScanAll(spends).spent, run + [i])
    requires Avoids(run, ResolvedImages(spends))
    ensures i.image in truth
    ensures i.out == truth[i.image] <==> i.image !in ResolvedImages(spends)
  {
    var st := ScanAll(spends);
    assert (run + [i])[..|run|] == run;
    ScanMarksSoleOrResolved(spends, truth);
    AvoidingRunIsTrue(spends, truth, run);
    RunGrows(st.relativeRings, st.outputs, st.spent, run);
    InferenceIsTrueIff(st, truth, After(st.spent, run), i);
    if i.image !in ResolvedImages(spends) {
      InferenceKeepsInside(st, truth, After(st.spent, run), ResolvedImages(spends), i);
    }
  }

  /** What the tool promises for one database: the result is the least set
      closed under the rule, it is no larger than the number of key images, and
      every consistent history spends all of it. */
  ghost predicate Exact(rings: Rings, spent: set<OutputData>) {
    && Least(rings, spent)
    && |spent| <= |rings|
    && forall a :: Assignment(rings, a) ==> spent <= Image(a)
  }

  /** What it should promise for several: every consistent history spends all of it. */
  ghost predicate Sound(spends: seq<Spend>, spent: set<OutputData>) {
    forall truth :: History(spends, truth) ==> spent <= Image(truth)
  }

  lemma ResultIsExact(spends: seq<Spend>, spent: set<OutputData>)
    requires UniqueImages(spends) && Yields(ScanAll(spends), spent)
    ensures Exact(RingsOf(spends), spent)
  {
    var rings := RingsOf(spends);
    var run :| YieldsBy(ScanAll(spends), spent, run);
    var cause := SingleResult(spends, run, spent);
    SupportedSize(rings, spent, cause);
    forall a | Assignment(rings, a) ensures spent <= Image(a) {
      SupportedIsSpent(rings, spent, cause, a);
    }
  }

  /** Any databases: an execution that makes no inference from a resolved key
      image marks only what every consistent history spends. */
  lemma ResultIsSound(spends: seq<Spend>, spent: set<OutputData>, run: seq<Inference>)
    requires YieldsBy(ScanAll(spends), spent, run) && Avoids(run, ResolvedImages(spends))
    ensures Sound(spends, spent)
  {
    forall truth | History(spends, truth) ensures spent <= Image(truth) {
      ScanKeepsTruth(spends, truth);
      AvoidingRunIsTrue(spends, truth, run);
    }
  }

  /** Any databases, exactly: the result is sound when, in every consistent
      history, all inferences from rings whose own spend was marked before happen
      to mark another true spend. */
  lemma ResultIsSoundIff(spends: seq<Spend>, spent: set<OutputData>, run: seq<Inference>)
    requires YieldsBy(ScanAll(spends), spent, run)
    ensures Sound(spends, spent) <==>
      forall truth :: History(spends, truth) ==> IdleAreTrue(ScanAll(spends), truth, run)
  {
    forall truth | History(spends, truth) ensures spent <= Image(truth) <==> IdleAreTrue(ScanAll(spends), truth, run) {
      ScanKeepsTruth(spends, truth);
      RunIsSoundIff(ScanAll(spends), truth, run);
    }
  }

  /** The tool: scan the databases, then run the second pass. */
  method FindSpent(dbs: seq<Database>, rctOnly: bool)
    returns (spent: set<OutputData>, ghost turns: seq<seq<Visit>>, ghost run: seq<Inference>)
    ensures ExecutesOn(ScanAll(AllSpends(dbs, rctOnly)), spent, turns)
    ensures YieldsBy(ScanAll(AllSpends(dbs, rctOnly)), spent, run)
    ensures UniqueImages(AllSpends(dbs, rctOnly)) ==> Exact(RingsOf(AllSpends(dbs, rctOnly)), spent)
    ensures Avoids(run, ResolvedImages(AllSpends(dbs, rctOnly))) ==> Sound(AllSpends(dbs, rctOnly), spent)
  {
    ghost var all := AllSpends(dbs, rctOnly);
    var st := ScanDatabases(dbs, rctOnly);
    ScanMarksBoth(all);
    spent, turns := SecondPass(st.relativeRings, st.outputs, st.spent, st.newlySpent);
    run := ExecutionYields(st, spent, turns);
    if UniqueImages(all) {
      ResultIsExact(all, spent);
    }
    if Avoids(run, ResolvedImages(all)) {
      ResultIsSound(all, spent, run);
    }
  }

  // ---- Order independence ------------------------------------------------------------------

  lemma {:induction false} DbSpendsIsConcatMap(db: Database, rctOnly: bool, main: bool, f: Tx -> seq<Spend>)
    requires forall tx :: f(tx) == TxSpends(tx.vin, rctOnly, main)
    ensures DbSpends(db, rctOnly, main) == ConcatMap(f, db)
  {
    if db != [] {
      DbSpendsIsConcatMap(db[..|db| - 1], rctOnly, main, f);
    }
  }

  lemma DbSpendsOfPermutation(db: Database, db': Database, rctOnly: bool, main: bool)
    requires multiset(db) == multiset(db')
    ensures multiset(DbSpends(db, rctOnly, main)) == multiset(DbSpends(db', rctOnly, main))
  {
    var f := (tx: Tx) => TxSpends(tx.vin, rctOnly, main);
    DbSpendsIsConcatMap(db, rctOnly, main, f);
    DbSpendsIsConcatMap(db', rctOnly, main, f);
    ConcatMapOfPermutation(f, db, db');
  }

  lemma UniqueImagesOfPermutation(s: seq<Spend>, t: seq<Spend>)
    requires UniqueImages(s) && multiset(s) == multiset(t)
    ensures UniqueImages(t)
  {
    forall sp | sp in t ensures sp.main && |sp.offsets| < TWO32 {
      assert sp in multiset(t);
      assert sp in s;
    }
    forall i, j | 0 <= i < j < |t| ensures t[i].image != t[j].image {
      if t[i].image == t[j].image {
        assert t[i] in multiset(t) && t[j] in multiset(t);
        assert t[i] in s && t[j] in s;
        assert t[i] == t[j];
        CountTwice(t, i, j);
        CountOnce(s, t[i]);
      }
    }
  }

  lemma {:induction false} CountOnce(s: seq<Spend>, sp: Spend)
    requires forall i, j :: 0 <= i < j < |s| ==> s[i].image != s[j].image
    ensures multiset(s)[sp] <= 1
  {
    if s != [] {
      RemoveLast(s);
      CountOnce(s[..|s| - 1], sp);
      if sp == s[|s| - 1] {
        assert sp !in s[..|s| - 1];
      }
    }
  }

  lemma RingsOfSubset(s: seq<Spend>, t: seq<Spend>)
    requires UniqueImages(s) && UniqueImages(t)
    requires forall sp :: sp in s ==> sp in t
    ensures forall k :: k in RingsOf(s) ==> k in RingsOf(t) && RingsOf(t)[k] == RingsOf(s)[k]
  {
    RingsOfElements(s);
    RingsOfElements(t);
    forall k | k in RingsOf(s) ensures k in RingsOf(t) && RingsOf(t)[k] == RingsOf(s)[k] {
      var sp :| sp in s && sp.image == k;
      assert sp in t;
    }
  }

  lemma RingsOfPermutation(s: seq<Spend>, t: seq<Spend>)
    requires UniqueImages(s) && UniqueImages(t) && multiset(s) == multiset(t)
    ensures RingsOf(s) == RingsOf(t)
  {
    assert forall sp :: sp in s <==> sp in multiset(s);
    assert forall sp :: sp in t <==> sp in multiset(t);
    RingsOfSubset(s, t);
    RingsOfSubset(t, s);
  }

  /** For one database without repeated key images, the result depends neither
      on the order in which the hash sets are walked nor on the order of the
      transactions: any two executions on permuted databases agree. */
  lemma OrderIndependent(db: Database, db': Database, rctOnly: bool, spent: set<OutputData>, spent': set<OutputData>)
    requires multiset(db) == multiset(db')
    requires UniqueImages(AllSpends([db], rctOnly))
    requires Yields(ScanAll(AllSpends([db], rctOnly)), spent)
    requires Yields(ScanAll(AllSpends([db'], rctOnly)), spent')
    ensures spent == spent'
  {
    OneDatabase(db, rctOnly);
    OneDatabase(db', rctOnly);
    var s, t := DbSpends(db, rctOnly, true), DbSpends(db', rctOnly, true);
    DbSpendsOfPermutation(db, db', rctOnly, true);
    UniqueImagesOfPermutation(s, t);
    RingsOfPermutation(s, t);
    ResultIsExact(s, spent);
    ResultIsExact(t, spent');
    LeastIsUnique(RingsOf(s), spent, spent');
  }

  lemma OneDatabase(db: Database, rctOnly: bool)
    ensures AllSpends([db], rctOnly) == DbSpends(db, rctOnly, true)
  {
    assert [db][..0] == [];
  }

  lemma {:induction false} ScanMarksBoth(spends: seq<Spend>)
    ensures ScanAll(spends).newlySpent == ScanAll(spends).spent
  {
    if spends != [] {
      ScanMarksBoth(spends[..|spends| - 1]);
    }
  }
}
