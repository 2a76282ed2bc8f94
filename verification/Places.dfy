/** Places in nested lists, in the order in which nested loops visit them. */
module Places {

  /** Element `z` of element `y` of element `x`. */
  datatype Place = Place(x: nat, y: nat, z: nat)

  predicate Before(p: Place, q: Place) {
    p.x < q.x || (p.x == q.x && (p.y < q.y || (p.y == q.y && p.z < q.z)))
  }

  /** Each place once, in loop order. A set of places has only one such list. */
  ghost predicate InOrder(s: seq<Place>) {
    forall i, j :: 0 <= i < j < |s| ==> Before(s[i], s[j])
  }

  ghost predicate SameMembers(s: seq<Place>, t: seq<Place>) {
    forall p :: p in s <==> p in t
  }

  lemma InOrderSplit(a: seq<Place>, b: seq<Place>)
    requires InOrder(a) && InOrder(b)
    requires forall p, q :: p in a && q in b ==> Before(p, q)
    ensures InOrder(a + b)
  {
    var s := a + b;
    forall i, j | 0 <= i < j < |s| ensures Before(s[i], s[j]) {
      if i < |a| <= j {
        assert s[i] in a && s[j] in b;
      }
    }
  }

  lemma {:induction false} InOrderIsUnique(s: seq<Place>, t: seq<Place>)
    requires InOrder(s) && InOrder(t) && SameMembers(s, t)
    ensures s == t
  {
    if t != [] {
      assert t[0] in s;
    }
    if s != [] {
      assert s[0] in t;
      var n, m := |s| - 1, |t| - 1;
      SameLast(s, t);
      FrontInOrder(s);
      FrontInOrder(t);
      FrontsAgree(s, t);
      hide InOrder;
      InOrderIsUnique(s[..n], t[..m]);
      assert s == s[..n] + [s[n]] && t == t[..m] + [t[m]];
    }
  }

  lemma SameLast(s: seq<Place>, t: seq<Place>)
    requires s != [] && t != [] && InOrder(s) && InOrder(t) && SameMembers(s, t)
    ensures s[|s| - 1] == t[|t| - 1]
  {
    assert s[|s| - 1] in t && t[|t| - 1] in s;
    LastIsLatest(s, t);
    LastIsLatest(t, s);
  }

  lemma FrontsAgree(s: seq<Place>, t: seq<Place>)
    requires s != [] && t != [] && InOrder(s) && InOrder(t) && SameMembers(s, t)
    ensures SameMembers(s[..|s| - 1], t[..|t| - 1])
  {
    SameLast(s, t);
    FrontMembers(s);
    FrontMembers(t);
    hide InOrder;
    var front, front' := s[..|s| - 1], t[..|t| - 1];
    forall p ensures p in front <==> p in front' {
      assert p in s <==> p in t;
    }
  }

  lemma FrontInOrder(s: seq<Place>)
    requires s != [] && InOrder(s)
    ensures InOrder(s[..|s| - 1])
  {
  }

  lemma LastIsLatest(s: seq<Place>, t: seq<Place>)
    requires s != [] && t != [] && InOrder(t) && s[|s| - 1] in t
    ensures s[|s| - 1] == t[|t| - 1] || Before(s[|s| - 1], t[|t| - 1])
  {
  }

  lemma FrontMembers(s: seq<Place>)
    requires s != [] && InOrder(s)
    ensures forall p :: p in s[..|s| - 1] <==> p in s && p != s[|s| - 1]
  {
    var n := |s| - 1;
    assert s == s[..n] + [s[n]];
    forall p | p in s[..n] ensures p != s[n] {
      var i :| 0 <= i < n && s[i] == p;
      assert Before(s[i], s[n]);
    }
  }
}
