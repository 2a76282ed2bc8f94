/** Ring offsets as stored in transaction inputs: relative offsets, absolute
    indices, and the two conversions of cryptonote_format_utils.cpp.
    All arithmetic is on 64-bit unsigned integers, so sums wrap. */
module RingOffsets {

  const TWO64: int := 0x1_0000_0000_0000_0000

  type U64 = x: int | 0 <= x < TWO64

  /** Unsigned 64-bit addition. */
  function Add64(x: U64, y: U64): (r: U64) {
    if x + y < TWO64 then x + y else x + y - TWO64
  }

  /** Unsigned 64-bit subtraction. */
  function Sub64(x: U64, y: U64): (r: U64) {
    if y <= x then x - y else x - y + TWO64
  }

  ghost predicate Ascending(s: seq<U64>) {
    forall i, j :: 0 <= i < j < |s| ==> s[i] <= s[j]
  }

  /** Insertion of one value into a sequence, before the first value not below it. */
  function Insert(x: U64, s: seq<U64>): (r: seq<U64>)
    ensures multiset(r) == multiset{x} + multiset(s)
  {
    if s == [] || x <= s[0] then [x] + s
    else
      assert s == [s[0]] + s[1..];
      [s[0]] + Insert(x, s[1..])
  }

  lemma {:induction false} InsertAscending(x: U64, s: seq<U64>)
    requires Ascending(s)
    ensures Ascending(Insert(x, s))
  {
    if s != [] && s[0] < x {
      var t := Insert(x, s[1..]);
      InsertAscending(x, s[1..]);
      forall k | 0 <= k < |t| ensures s[0] <= t[k] {
        InsertedMember(x, s[1..], k);
      }
      assert Insert(x, s) == [s[0]] + t;
      hide Insert;
    }
  }

  lemma InsertedMember(x: U64, s: seq<U64>, k: nat)
    requires k < |Insert(x, s)|
    ensures Insert(x, s)[k] == x || Insert(x, s)[k] in s
  {
    hide Insert;
    assert Insert(x, s)[k] in multiset(Insert(x, s));
  }

  /** What `std::sort` yields. */
  function Sorted(s: seq<U64>): (r: seq<U64>)
    ensures Ascending(r)
    ensures multiset(r) == multiset(s)
    ensures |r| == |s|
  {
    if s == [] then []
    else
      assert s == [s[0]] + s[1..];
      InsertAscending(s[0], Sorted(s[1..]));
      var r := Insert(s[0], Sorted(s[1..]));
      assert |multiset(r)| == |multiset(s)|;
      r
  }

  lemma SortedMembers(s: seq<U64>)
    ensures forall x :: x in Sorted(s) <==> x in s
  {
    forall x ensures x in Sorted(s) <==> x in s {
      assert x in Sorted(s) <==> x in multiset(Sorted(s));
      assert x in s <==> x in multiset(s);
    }
  }

  lemma {:induction false} SortedOfAscending(s: seq<U64>)
    requires Ascending(s)
    ensures Sorted(s) == s
  {
    if s != [] {
      SortedOfAscending(s[1..]);
    }
  }

  /** Wrapped prefix sums. */
  function Absolute(off: seq<U64>): (res: seq<U64>)
    ensures |res| == |off|
  {
    if |off| <= 1 then off
    else
      var n := |off| - 1;
      var init := Absolute(off[..n]);
      init + [Add64(init[n - 1], off[n])]
  }

  /** Wrapped differences of neighbours. */
  function Differences(s: seq<U64>): (res: seq<U64>)
    ensures |res| == |s|
    ensures forall i :: 0 < i < |s| ==> res[i] == Sub64(s[i], s[i - 1])
    ensures s != [] ==> res[0] == s[0]
  {
    if |s| <= 1 then s
    else Differences(s[..|s| - 1]) + [Sub64(s[|s| - 1], s[|s| - 2])]
  }

  function Relative(off: seq<U64>): (res: seq<U64>) {
    Differences(Sorted(off))
  }

  method RelativeOutputOffsetsToAbsolute(off: seq<U64>) returns (res: seq<U64>)
    ensures res == Absolute(off)
  {
    res := off;
    var i := 1;
    while i < |res|
      invariant 1 <= i
      invariant |res| == |off|
      invariant i <= |off| ==> res[..i] == Absolute(off[..i])
      invariant |off| < i ==> |off| == 0
      invariant forall k :: i <= k < |off| ==> res[k] == off[k]
    {
      ghost var before := res;
      assert off[..i + 1][..i] == off[..i];
      res := res[i := Add64(res[i], res[i - 1])];
      assert res[..i] == before[..i];
      assert res[..i + 1] == before[..i] + [res[i]];
      i := i + 1;
    }
    if off != [] {
      assert off[..|off|] == off && res[..|off|] == res;
    }
  }

  /** The loop that turns a sorted vector into its differences, from the end. */
  method SubtractNeighbours(s: seq<U64>) returns (res: seq<U64>)
    requires s != []
    ensures res == Differences(s)
  {
    res := s;
    var i := |res| - 1;
    while i != 0
      invariant 0 <= i < |s| == |res|
      invariant forall k :: 0 <= k <= i ==> res[k] == s[k]
      invariant forall k :: i < k < |s| ==> res[k] == Sub64(s[k], s[k - 1])
    {
      res := res[i := Sub64(res[i], res[i - 1])];
      i := i - 1;
    }
    forall k | 0 <= k < |s| ensures res[k] == Differences(s)[k] {
      if k > 0 {
        assert res[k] == Sub64(s[k], s[k - 1]);
      }
    }
  }

  method AbsoluteOutputOffsetsToRelative(off: seq<U64>) returns (res: seq<U64>)
    ensures res == Relative(off)
  {
    if |off| == 0 {
      return off;
    }
    res := SubtractNeighbours(Sorted(off));
  }

  lemma AbsoluteStep(off: seq<U64>, i: nat)
    requires 0 < i < |off|
    ensures Absolute(off)[i] == Add64(Absolute(off)[i - 1], off[i])
    ensures Absolute(off)[0] == off[0]
  {
    if i == |off| - 1 {
      AbsolutePrefix(off, i);
      AbsolutePrefix(off, 1);
    } else {
      AbsolutePrefix(off, i + 1);
      AbsoluteStep(off[..i + 1], i);
    }
  }

  lemma {:induction false} AbsolutePrefix(off: seq<U64>, n: nat)
    requires n <= |off|
    ensures Absolute(off)[..n] == Absolute(off[..n])
  {
    if n == |off| {
      assert off[..n] == off;
    } else if |off| > 1 {
      AbsolutePrefix(off[..|off| - 1], n);
      assert off[..|off| - 1][..n] == off[..n];
    }
  }

  /** Converting to relative offsets and back sorts the ring and loses nothing. */
  lemma {:induction false} RelativeThenAbsolute(s: seq<U64>)
    ensures Absolute(Relative(s)) == Sorted(s)
  {
    DifferencesThenAbsolute(Sorted(s));
  }

  lemma {:induction false} DifferencesThenAbsolute(s: seq<U64>)
    requires Ascending(s)
    ensures Absolute(Differences(s)) == s
  {
    forall i | 0 <= i < |s| ensures Absolute(Differences(s))[i] == s[i] {
      DifferencesThenAbsoluteAt(s, i);
    }
  }

  lemma {:induction false} DifferencesThenAbsoluteAt(s: seq<U64>, i: nat)
    requires Ascending(s) && i < |s|
    ensures Absolute(Differences(s))[i] == s[i]
  {
    if i > 0 {
      DifferencesThenAbsoluteAt(s, i - 1);
      AbsoluteStep(Differences(s), i);
      assert s[i - 1] <= s[i];
    } else if |s| > 1 {
      AbsoluteStep(Differences(s), 1);
    }
  }

  function Sum(off: seq<U64>): (n: nat) {
    if off == [] then 0 else Sum(off[..|off| - 1]) + off[|off| - 1]
  }

  lemma SumWraps(a: nat, x: U64)
    ensures (a + x) % 0x1_0000_0000_0000_0000 == Add64(a % 0x1_0000_0000_0000_0000, x)
  {
  }

  /** An absolute index is the sum of the offsets up to it, modulo 2^64. */
  lemma {:induction false} AbsoluteIsSum(off: seq<U64>, i: nat)
    requires i < |off|
    ensures Absolute(off)[i] == Sum(off[..i + 1]) % 0x1_0000_0000_0000_0000
  {
    assert off[..i + 1][..i] == off[..i];
    if i == 0 {
      AbsolutePrefix(off, 1);
    } else {
      AbsoluteIsSum(off, i - 1);
      AbsoluteStep(off, i);
      SumWraps(Sum(off[..i]), off[i]);
    }
  }

  lemma {:induction false} NoWrapSum(off: seq<U64>)
    requires Sum(off) < TWO64 && off != []
    ensures Absolute(off)[|off| - 1] == Sum(off)
    ensures Ascending(Absolute(off))
  {
    if |off| > 1 {
      NoWrapSum(off[..|off| - 1]);
    } else {
      assert off[..0] == [];
    }
  }

  lemma {:induction false} AscendingMeansNoWrap(off: seq<U64>)
    requires Ascending(Absolute(off)) && off != []
    ensures Sum(off) < TWO64
    ensures Absolute(off)[|off| - 1] == Sum(off)
  {
    if |off| > 1 {
      var n := |off| - 1;
      AbsolutePrefix(off, n);
      AscendingMeansNoWrap(off[..n]);
      assert Absolute(off)[n - 1] <= Absolute(off)[n];
    } else {
      assert off[..0] == [];
    }
  }

  lemma {:induction false} DifferencesOfAbsolute(off: seq<U64>)
    requires Ascending(Absolute(off))
    ensures Differences(Absolute(off)) == off
  {
    forall i | 0 <= i < |off| ensures Differences(Absolute(off))[i] == off[i] {
      if i > 0 {
        AbsoluteStep(off, i);
      } else if |off| > 1 {
        AbsoluteStep(off, 1);
      }
    }
  }

  /** Converting to absolute indices and back is the identity exactly on the
      offset lists whose total fits in 64 bits. */
  lemma {:induction false} AbsoluteThenRelative(off: seq<U64>)
    ensures Relative(Absolute(off)) == off <==> Sum(off) < TWO64
  {
    if off == [] {
      assert Relative(Absolute(off)) == off;
    } else if Sum(off) < TWO64 {
      NoWrapSum(off);
      SortedOfAscending(Absolute(off));
      DifferencesOfAbsolute(off);
    } else if Relative(Absolute(off)) == off {
      RelativeThenAbsolute(Absolute(off));
      AscendingMeansNoWrap(off);
    }
  }
}
