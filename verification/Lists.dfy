/** Lists without repetition, and what they list. */
module Lists {
  ghost predicate Distinct<T>(s: seq<T>) {
    forall i, j :: 0 <= i < j < |s| ==> s[i] != s[j]
  }

  ghost function Elements<T>(s: seq<T>): (r: set<T>) {
    set x | x in s
  }

  /** Lists each element of the set once, in some order. */
  ghost predicate Enumerates<T>(s: seq<T>, of: set<T>) {
    Distinct(s) && Elements(s) == of
  }

  lemma DistinctSplit<T>(a: seq<T>, b: seq<T>)
    ensures Distinct(a + b) <==> Distinct(a) && Distinct(b) && Elements(a) !! Elements(b)
    ensures Elements(a + b) == Elements(a) + Elements(b)
  {
    var c := a + b;
    if Distinct(c) {
      forall i, j | 0 <= i < j < |a| ensures a[i] != a[j] { assert c[i] == a[i] && c[j] == a[j]; }
      forall i, j | 0 <= i < j < |b| ensures b[i] != b[j] { assert c[|a| + i] == b[i] && c[|a| + j] == b[j]; }
      forall i, j | 0 <= i < |a| && 0 <= j < |b| ensures a[i] != b[j] { assert c[i] == a[i] && c[|a| + j] == b[j]; }
    }
    if Distinct(a) && Distinct(b) && Elements(a) !! Elements(b) {
      forall i, j | 0 <= i < j < |c| ensures c[i] != c[j] {
        if i < |a| <= j {
          assert c[i] in Elements(a) && c[j] in Elements(b);
        }
      }
    }
  }

  lemma ListMore<T>(s: seq<T>, x: T)
    ensures Distinct(s + [x]) <==> Distinct(s) && x !in s
    ensures Elements(s + [x]) == Elements(s) + {x}
  {
    DistinctSplit(s, [x]);
    assert Elements([x]) == {x};
  }

  /** Taking an element off what is left of a set and listing it. */
  lemma EnumeratesMore<T>(s: seq<T>, of: set<T>, left: set<T>, x: T)
    requires left <= of && x in left && Enumerates(s, of - left)
    ensures Enumerates(s + [x], of - (left - {x}))
  {
    ListMore(s, x);
    assert x !in Elements(s);
    assert of - (left - {x}) == of - left + {x};
  }
}
