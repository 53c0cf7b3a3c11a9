/** Ascending sort of real numbers, the `sort_by(partial_cmp)` applied to the
    bootstrap draws. Reals are totally ordered, so the comparison never
    fails, and a sorted arrangement of a multiset is unique. */
module Sorting {

  predicate Ascending(s: seq<real>)
  {
    forall i, j :: 0 <= i < j < |s| ==> s[i] <= s[j]
  }

  /** `x` inserted before the first element that is not smaller. */
  function Insert(x: real, s: seq<real>): (r: seq<real>)
    requires Ascending(s)
    ensures |r| == |s| + 1
    ensures r[0] == if |s| == 0 || x <= s[0] then x else s[0]
    ensures Ascending(r)
    ensures multiset(r) == multiset(s) + multiset{x}
  {
    if |s| == 0 then [x]
    else if x <= s[0] then [x] + s
    else
      var rest := Insert(x, s[1..]);
      assert s == [s[0]] + s[1..];
      assert s[0] <= rest[0];
      [s[0]] + rest
  }

  /** Insertion sort: the elements of `s` in ascending order. */
  function Sort(s: seq<real>): (r: seq<real>)
    ensures |r| == |s|
    ensures Ascending(r)
    ensures multiset(r) == multiset(s)
  {
    if |s| == 0 then []
    else
      assert s == [s[0]] + s[1..];
      Insert(s[0], Sort(s[1..]))
  }

  /** Two ascending sequences holding the same elements are equal. */
  lemma {:induction false} AscendingUnique(a: seq<real>, b: seq<real>)
    requires Ascending(a) && Ascending(b) && multiset(a) == multiset(b)
    ensures a == b
  {
    SameElementsSameLength(a, b);
    if |a| > 0 {
      HeadIsLeast(b, a[0], a);
      HeadIsLeast(a, b[0], b);
      SameHeadSameTails(a, b);
      AscendingUnique(a[1..], b[1..]);
      SameHeadSameTail(a, b);
    }
  }

  lemma SameElementsSameLength(a: seq<real>, b: seq<real>)
    requires multiset(a) == multiset(b)
    ensures |a| == |b|
  {
    assert |a| == |multiset(a)|;
    assert |b| == |multiset(b)|;
  }

  /** The head of an ascending sequence is at most the head of any
      sequence holding the same elements. */
  lemma HeadIsLeast(a: seq<real>, x: real, other: seq<real>)
    requires Ascending(a) && |other| > 0 && x == other[0] && multiset(a) == multiset(other)
    ensures |a| > 0 && a[0] <= x
  {
    assert x in multiset(other);
    var i :| 0 <= i < |a| && a[i] == x;
  }

  lemma SameHeadSameTails(a: seq<real>, b: seq<real>)
    requires multiset(a) == multiset(b) && |a| > 0 && |b| > 0 && a[0] == b[0]
    ensures multiset(a[1..]) == multiset(b[1..])
  {
    assert a == [a[0]] + a[1..];
    assert b == [b[0]] + b[1..];
    calc {
      multiset(a[1..]);
      multiset(a) - multiset{a[0]};
      multiset(b) - multiset{b[0]};
      multiset(b[1..]);
    }
  }

  lemma SameHeadSameTail(a: seq<real>, b: seq<real>)
    requires |a| > 0 && |b| > 0 && a[0] == b[0] && a[1..] == b[1..]
    ensures a == b
  {
    assert a == [a[0]] + a[1..];
    assert b == [b[0]] + b[1..];
  }

  /** The sorted draws depend only on which values were drawn, not on the
      order in which they were drawn. */
  lemma SortDependsOnlyOnMultiset(s: seq<real>, t: seq<real>)
    requires multiset(s) == multiset(t)
    ensures Sort(s) == Sort(t)
  {
    AscendingUnique(Sort(s), Sort(t));
  }

  /** Every element of the sorted sequence is one of the input's. */
  lemma SortKeepsElements(s: seq<real>, k: nat)
    requires k < |Sort(s)|
    ensures Sort(s)[k] in s
  {
    assert Sort(s)[k] in multiset(Sort(s));
  }
}
