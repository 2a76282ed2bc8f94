/** Concatenated images of a sequence, up to order. */
module Permutations {

  function ConcatMap<T, U>(f: T -> seq<U>, s: seq<T>): (r: seq<U>) {
    if s == [] then [] else ConcatMap(f, s[..|s| - 1]) + f(s[|s| - 1])
  }

  lemma {:induction false} ConcatMapSplit<T, U>(f: T -> seq<U>, a: seq<T>, b: seq<T>)
    ensures ConcatMap(f, a + b) == ConcatMap(f, a) + ConcatMap(f, b)
  {
    if b == [] {
      assert a + b == a;
    } else {
      var n := |b| - 1;
      assert (a + b)[..|a + b| - 1] == a + b[..n];
      ConcatMapSplit(f, a, b[..n]);
    }
  }

  lemma ConcatMapInsert<T, U>(f: T -> seq<U>, a: seq<T>, x: T, b: seq<T>)
    ensures ConcatMap(f, a + [x] + b) == ConcatMap(f, a) + f(x) + ConcatMap(f, b)
  {
    ConcatMapSplit(f, a + [x], b);
    assert (a + [x])[..|a|] == a;
  }

  lemma ConcatMapMiddle<T, U>(f: T -> seq<U>, s: seq<T>, i: nat)
    requires i < |s|
    ensures multiset(ConcatMap(f, s)) == multiset(ConcatMap(f, s[..i] + s[i + 1..])) + multiset(f(s[i]))
  {
    assert s == s[..i] + [s[i]] + s[i + 1..];
    ConcatMapInsert(f, s[..i], s[i], s[i + 1..]);
    ConcatMapSplit(f, s[..i], s[i + 1..]);
  }

  lemma RemoveLast<T>(s: seq<T>)
    requires s != []
    ensures multiset(s) == multiset(s[..|s| - 1]) + multiset{s[|s| - 1]}
  {
    assert s == s[..|s| - 1] + [s[|s| - 1]];
  }

  lemma RemoveMiddle<T>(s: seq<T>, i: nat)
    requires i < |s|
    ensures multiset(s) == multiset(s[..i] + s[i + 1..]) + multiset{s[i]}
  {
    assert s == s[..i] + [s[i]] + s[i + 1..];
  }

  lemma CountTwice<T>(t: seq<T>, i: nat, j: nat)
    requires i < j < |t| && t[i] == t[j]
    ensures multiset(t)[t[i]] >= 2
  {
    RemoveMiddle(t, j);
    assert (t[..j] + t[j + 1..])[i] == t[i];
    assert t[i] in multiset(t[..j] + t[j + 1..]);
  }

  lemma Cancel<T>(a: multiset<T>, b: multiset<T>, x: T)
    requires a + multiset{x} == b + multiset{x}
    ensures a == b
  {
    assert a == a + multiset{x} - multiset{x};
    assert b == b + multiset{x} - multiset{x};
  }

  /** Permuting the sequence permutes the concatenation. */
  lemma {:induction false} ConcatMapOfPermutation<T, U>(f: T -> seq<U>, s: seq<T>, t: seq<T>)
    requires multiset(s) == multiset(t)
    ensures multiset(ConcatMap(f, s)) == multiset(ConcatMap(f, t))
  {
    if s == [] {
      assert |multiset(s)| == |multiset(t)|;
    } else {
      var n := |s| - 1;
      assert s[n] in multiset(t);
      var i: nat :| i < |t| && t[i] == s[n];
      RemoveLast(s);
      RemoveMiddle(t, i);
      Cancel(multiset(s[..n]), multiset(t[..i] + t[i + 1..]), s[n]);
      ConcatMapOfPermutation(f, s[..n], t[..i] + t[i + 1..]);
      ConcatMapMiddle(f, t, i);
    }
  }
}
