/** Runs of a store whose pop undoes its last push. The store is given by two
    partial operations: `push` may refuse, and `pop` hands back a view of what
    was pushed. A refused call leaves the store as it is. */
module UndoStack {
  import opened SharedTypes

  datatype Op<+E> = Push(e: E) | Pop

  function Step<S, E, O, X>(push: (S, E) -> Result<S, X>, pop: S -> Result<(S, O), X>, s: S, op: Op<E>): (r: S) {
    match op
    case Push(e) => (match push(s, e) case Ok(u) => u case Err(_) => s)
    case Pop => (match pop(s) case Ok(p) => p.0 case Err(_) => s)
  }

  /** The store after a run that started with `empty`. */
  function Run<S, E, O, X>(
      push: (S, E) -> Result<S, X>, pop: S -> Result<(S, O), X>, empty: S, ops: seq<Op<E>>): (r: S)
  {
    if ops == [] then empty
    else Step(push, pop, Run(push, pop, empty, ops[..|ops| - 1]), ops[|ops| - 1])
  }

  /** The store after pushing the elements of `chain` one after the other. */
  function Replay<S, E, X>(push: (S, E) -> Result<S, X>, empty: S, chain: seq<E>): (r: Result<S, X>) {
    if chain == [] then Ok(empty)
    else
      var s :- Replay(push, empty, chain[..|chain| - 1]);
      push(s, chain[|chain| - 1])
  }

  /** What a run leaves on the stack: accepted pushes add, pops drop the last. */
  function Surviving<S, E, X>(push: (S, E) -> Result<S, X>, empty: S, ops: seq<Op<E>>): (chain: seq<E>) {
    if ops == [] then []
    else
      var chain := Surviving(push, empty, ops[..|ops| - 1]);
      match ops[|ops| - 1]
      case Push(e) => if Replay(push, empty, chain + [e]).Ok? then chain + [e] else chain
      case Pop => if chain == [] then [] else chain[..|chain| - 1]
  }

  /** Pop undoes a push of any element at a store where it is good, and fails on
      the empty store. */
  ghost predicate Undoes<S(!new), E(!new), O, X>(
      push: (S, E) -> Result<S, X>, pop: S -> Result<(S, O), X>, empty: S, view: E -> O, good: (S, E) -> bool)
  {
    && pop(empty).Err?
    && forall s, e :: good(s, e) && push(s, e).Ok? ==> pop(push(s, e).value) == Ok((s, view(e)))
  }

  /** Every element that the run pushed was good at the store it met. */
  ghost predicate GoodRun<S, E, O, X>(
      push: (S, E) -> Result<S, X>, pop: S -> Result<(S, O), X>, empty: S, good: (S, E) -> bool, ops: seq<Op<E>>)
  {
    ops == [] ||
    var n := |ops| - 1;
    var s := Run(push, pop, empty, ops[..n]);
    GoodRun(push, pop, empty, good, ops[..n]) && (ops[n].Push? && push(s, ops[n].e).Ok? ==> good(s, ops[n].e))
  }

  /** Every element of the chain from position `k` on is good at the store that
      the elements before it build. */
  ghost predicate GoodChain<S, E, X>(
      push: (S, E) -> Result<S, X>, empty: S, good: (S, E) -> bool, chain: seq<E>, k: nat)
  {
    forall i: nat :: k <= i < |chain| ==>
      Replay(push, empty, chain[..i]).Ok? && good(Replay(push, empty, chain[..i]).value, chain[i])
  }

  lemma ReplayMore<S, E, X>(push: (S, E) -> Result<S, X>, empty: S, chain: seq<E>, e: E)
    requires Replay(push, empty, chain).Ok?
    ensures Replay(push, empty, chain + [e]) == push(Replay(push, empty, chain).value, e)
  {
    assert (chain + [e])[..|chain|] == chain;
  }

  lemma GoodChainMore<S, E, X>(
      push: (S, E) -> Result<S, X>, empty: S, good: (S, E) -> bool, chain: seq<E>, k: nat, e: E)
    requires GoodChain(push, empty, good, chain, k)
    requires Replay(push, empty, chain).Ok? && good(Replay(push, empty, chain).value, e)
    ensures GoodChain(push, empty, good, chain + [e], k)
  {
    var more := chain + [e];
    forall i: nat | k <= i < |more|
      ensures Replay(push, empty, more[..i]).Ok? && good(Replay(push, empty, more[..i]).value, more[i])
    {
      assert more[..i] == chain[..i];
      assert i == |chain| ==> chain[..i] == chain;
    }
  }

  lemma GoodChainLess<S, E, X>(push: (S, E) -> Result<S, X>, empty: S, good: (S, E) -> bool, chain: seq<E>, k: nat)
    requires GoodChain(push, empty, good, chain, k) && k < |chain|
    ensures GoodChain(push, empty, good, chain[..|chain| - 1], k)
  {
    var less := chain[..|chain| - 1];
    forall i: nat | k <= i < |less|
      ensures Replay(push, empty, less[..i]).Ok? && good(Replay(push, empty, less[..i]).value, less[i])
    {
      assert less[..i] == chain[..i];
    }
  }

  /** Every run whose accepted pushes were good leaves exactly the store that the
      surviving elements build alone. */
  lemma {:induction false} RunIsReplay<S(!new), E(!new), O, X>(
      push: (S, E) -> Result<S, X>, pop: S -> Result<(S, O), X>, empty: S, view: E -> O, good: (S, E) -> bool,
      ops: seq<Op<E>>)
    requires Undoes(push, pop, empty, view, good) && GoodRun(push, pop, empty, good, ops)
    ensures GoodChain(push, empty, good, Surviving(push, empty, ops), 0)
    ensures Replay(push, empty, Surviving(push, empty, ops)) == Ok(Run(push, pop, empty, ops))
  {
    hide Undoes;
    if ops != [] {
      var n := |ops| - 1;
      RunIsReplay(push, pop, empty, view, good, ops[..n]);
      StepIsReplay(push, pop, empty, view, good, ops[..n], ops[n]);
      assert ops[..n] + [ops[n]] == ops;
    }
  }

  lemma StepIsReplay<S(!new), E(!new), O, X>(
      push: (S, E) -> Result<S, X>, pop: S -> Result<(S, O), X>, empty: S, view: E -> O, good: (S, E) -> bool,
      ops: seq<Op<E>>, op: Op<E>)
    requires Undoes(push, pop, empty, view, good) && GoodRun(push, pop, empty, good, ops + [op])
    requires GoodChain(push, empty, good, Surviving(push, empty, ops), 0)
    requires Replay(push, empty, Surviving(push, empty, ops)) == Ok(Run(push, pop, empty, ops))
    ensures GoodChain(push, empty, good, Surviving(push, empty, ops + [op]), 0)
    ensures Replay(push, empty, Surviving(push, empty, ops + [op])) == Ok(Run(push, pop, empty, ops + [op]))
  {
    hide Replay, Undoes, GoodChain;
    assert (ops + [op])[..|ops|] == ops;
    var chain := Surviving(push, empty, ops);
    match op
    case Push(e) =>
      ReplayMore(push, empty, chain, e);
      if push(Run(push, pop, empty, ops), e).Ok? {
        GoodChainMore(push, empty, good, chain, 0, e);
      }
    case Pop =>
      if chain == [] {
        EmptyStays(push, pop, empty, view, good);
      } else {
        PopReplayed(push, pop, empty, view, good, chain, 0);
        GoodChainLess(push, empty, good, chain, 0);
      }
  }

  lemma EmptyStays<S(!new), E(!new), O, X>(
      push: (S, E) -> Result<S, X>, pop: S -> Result<(S, O), X>, empty: S, view: E -> O, good: (S, E) -> bool)
    requires Undoes(push, pop, empty, view, good)
    ensures Replay(push, empty, []) == Ok(empty) && pop(empty).Err?
    ensures GoodChain(push, empty, good, [], 0)
  {
  }

  lemma PopReplayed<S(!new), E(!new), O, X>(
      push: (S, E) -> Result<S, X>, pop: S -> Result<(S, O), X>, empty: S, view: E -> O, good: (S, E) -> bool,
      chain: seq<E>, k: nat)
    requires Undoes(push, pop, empty, view, good) && GoodChain(push, empty, good, chain, k) && k < |chain|
    requires Replay(push, empty, chain).Ok?
    ensures Replay(push, empty, chain[..|chain| - 1]).Ok?
    ensures pop(Replay(push, empty, chain).value) ==
      Ok((Replay(push, empty, chain[..|chain| - 1]).value, view(chain[|chain| - 1])))
  {
    assert good(Replay(push, empty, chain[..|chain| - 1]).value, chain[|chain| - 1]);
  }

  /** `n` pops, collecting what they hand back. */
  function PopMany<S, O, X>(pop: S -> Result<(S, O), X>, s: S, n: nat): (r: Result<(S, seq<O>), X>)
    decreases n
  {
    if n == 0 then Ok((s, []))
    else
      var p :- pop(s);
      var rest :- PopMany(pop, p.0, n - 1);
      Ok((rest.0, [p.1] + rest.1))
  }

  /** The views of the elements, last to first. */
  function ViewsBackwards<E, O>(view: E -> O, s: seq<E>): (r: seq<O>)
    ensures |r| == |s|
  {
    if s == [] then [] else [view(s[|s| - 1])] + ViewsBackwards(view, s[..|s| - 1])
  }

  /** n pops hand back the last n elements, last to first, and leave what came before. */
  lemma {:induction false} PopManyUndoes<S(!new), E(!new), O, X>(
      push: (S, E) -> Result<S, X>, pop: S -> Result<(S, O), X>, empty: S, view: E -> O, good: (S, E) -> bool,
      before: seq<E>, last: seq<E>)
    requires Undoes(push, pop, empty, view, good)
    requires GoodChain(push, empty, good, before + last, |before|)
    requires Replay(push, empty, before + last).Ok?
    ensures Replay(push, empty, before).Ok?
    ensures PopMany(pop, Replay(push, empty, before + last).value, |last|) ==
      Ok((Replay(push, empty, before).value, ViewsBackwards(view, last)))
  {
    hide Undoes, GoodChain;
    if last == [] {
      assert before + last == before;
    } else {
      var n := |last| - 1;
      assert (before + last)[..|before + last| - 1] == before + last[..n];
      PopReplayed(push, pop, empty, view, good, before + last, |before|);
      GoodChainLess(push, empty, good, before + last, |before|);
      PopManyUndoes(push, pop, empty, view, good, before, last[..n]);
    }
  }
}
