/** Finite sums over sequences, the `iter().sum()` of the Rust code, and the
    facts about them that the rest of the model leans on. */
module Sums {

  /** Sum of a sequence of reals, folded from the front. */
  function Sum(s: seq<real>): real
  {
    if |s| == 0 then 0.0 else s[0] + Sum(s[1..])
  }

  /** Sum of a sequence of counts. */
  function SumNat(s: seq<nat>): nat
  {
    if |s| == 0 then 0 else s[0] + SumNat(s[1..])
  }

  predicate AllNonNegative(s: seq<real>)
  {
    forall i :: 0 <= i < |s| ==> s[i] >= 0.0
  }

  predicate AllPositive(s: seq<real>)
  {
    forall i :: 0 <= i < |s| ==> s[i] > 0.0
  }

  predicate SomePositive(s: seq<real>)
  {
    exists i :: 0 <= i < |s| && s[i] > 0.0
  }

  /** Every entry of `s` multiplied by `c`. */
  function Scale(s: seq<real>, c: real): (r: seq<real>)
    ensures |r| == |s|
    ensures forall i :: 0 <= i < |s| ==> r[i] == s[i] * c
  {
    seq(|s|, i requires 0 <= i < |s| => s[i] * c)
  }

  /** A sequence that is termwise `s` times `c` is `Scale(s, c)`. */
  lemma ScaleExtensional(a: seq<real>, s: seq<real>, c: real)
    requires |a| == |s| && forall i :: 0 <= i < |a| ==> a[i] == s[i] * c
    ensures a == Scale(s, c)
  {
  }

  lemma {:induction false} SumAppend(a: seq<real>, b: seq<real>)
    ensures Sum(a + b) == Sum(a) + Sum(b)
  {
    if |a| == 0 {
      assert a + b == b;
    } else {
      assert (a + b)[1..] == a[1..] + b;
      SumAppend(a[1..], b);
    }
  }

  /** The sum of the first `k + 1` entries is the sum of the first `k` plus entry `k`. */
  lemma SumPrefixStep(s: seq<real>, k: nat)
    requires k < |s|
    ensures Sum(s[..k + 1]) == Sum(s[..k]) + s[k]
  {
    assert s[..k + 1] == s[..k] + [s[k]];
    SumAppend(s[..k], [s[k]]);
  }

  lemma {:induction false} SumNonNegative(s: seq<real>)
    requires AllNonNegative(s)
    ensures Sum(s) >= 0.0
  {
    if |s| > 0 {
      SumNonNegative(s[1..]);
    }
  }

  /** A sum of non-negative terms with one positive term is positive. */
  lemma {:induction false} SumPositive(s: seq<real>)
    requires AllNonNegative(s) && SomePositive(s)
    ensures Sum(s) > 0.0
  {
    var k :| 0 <= k < |s| && s[k] > 0.0;
    if k == 0 {
      SumNonNegative(s[1..]);
    } else {
      assert s[1..][k - 1] == s[k];
      SumPositive(s[1..]);
    }
  }

  /** A sum is zero exactly when its non-negative terms all are. */
  lemma SumZeroIffAllZero(s: seq<real>)
    requires AllNonNegative(s)
    ensures Sum(s) == 0.0 <==> forall i :: 0 <= i < |s| ==> s[i] == 0.0
  {
    if !(forall i :: 0 <= i < |s| ==> s[i] == 0.0) {
      SumPositive(s);
    } else {
      SumOfZeros(s);
    }
  }

  lemma {:induction false} SumOfZeros(s: seq<real>)
    requires forall i :: 0 <= i < |s| ==> s[i] == 0.0
    ensures Sum(s) == 0.0
  {
    if |s| > 0 {
      SumOfZeros(s[1..]);
    }
  }

  /** Scaling every term scales the sum. */
  lemma {:induction false} SumScale(s: seq<real>, c: real)
    ensures Sum(Scale(s, c)) == Sum(s) * c
  {
    if |s| > 0 {
      var t := Scale(s, c);
      assert |t[1..]| == |Scale(s[1..], c)|;
      assert forall i :: 0 <= i < |t| - 1 ==> t[1..][i] == s[1..][i] * c;
      assert t[1..] == Scale(s[1..], c);
      SumScale(s[1..], c);
    }
  }

  /** A sum of terms each at most `c` is at most `|s| * c`. */
  lemma {:induction false} SumBoundedAbove(s: seq<real>, c: real)
    requires forall i :: 0 <= i < |s| ==> s[i] <= c
    ensures Sum(s) <= (|s| as real) * c
  {
    if |s| > 0 {
      SumBoundedAbove(s[1..], c);
    }
  }

  /** A sum of terms each at least `c` is at least `|s| * c`. */
  lemma {:induction false} SumBoundedBelow(s: seq<real>, c: real)
    requires forall i :: 0 <= i < |s| ==> s[i] >= c
    ensures Sum(s) >= (|s| as real) * c
  {
    if |s| > 0 {
      SumBoundedBelow(s[1..], c);
    }
  }

  /** The sum of a constant sequence. */
  lemma {:induction false} SumConstant(s: seq<real>, c: real)
    requires forall i :: 0 <= i < |s| ==> s[i] == c
    ensures Sum(s) == (|s| as real) * c
  {
    if |s| > 0 {
      SumConstant(s[1..], c);
    }
  }

  lemma {:induction false} SumNatAppend(a: seq<nat>, b: seq<nat>)
    ensures SumNat(a + b) == SumNat(a) + SumNat(b)
  {
    if |a| == 0 {
      assert a + b == b;
    } else {
      assert (a + b)[1..] == a[1..] + b;
      SumNatAppend(a[1..], b);
    }
  }

  /** Adding one to a single entry adds one to the total. */
  lemma {:induction false} SumNatIncrement(s: seq<nat>, k: nat)
    requires k < |s|
    ensures SumNat(s[k := s[k] + 1]) == SumNat(s) + 1
  {
    if k > 0 {
      assert s[k := s[k] + 1][1..] == s[1..][k - 1 := s[k] + 1];
      SumNatIncrement(s[1..], k - 1);
    }
  }

  /** A total of counts is zero exactly when every count is. */
  lemma {:induction false} SumNatZeroIffAllZero(s: seq<nat>)
    ensures SumNat(s) == 0 <==> forall i :: 0 <= i < |s| ==> s[i] == 0
  {
    if |s| > 0 {
      SumNatZeroIffAllZero(s[1..]);
      assert forall i :: 1 <= i < |s| ==> s[i] == s[1..][i - 1];
    }
  }

  /** Dropping zero counts from both ends does not change the total. */
  lemma SumNatTrimZeros(s: seq<nat>, lo: nat, hi: nat)
    requires lo <= hi < |s|
    requires forall j :: 0 <= j < lo ==> s[j] == 0
    requires forall j :: hi < j < |s| ==> s[j] == 0
    ensures SumNat(s[lo..hi + 1]) == SumNat(s)
  {
    assert s == s[..lo] + s[lo..hi + 1] + s[hi + 1..];
    SumNatAppend(s[..lo] + s[lo..hi + 1], s[hi + 1..]);
    SumNatAppend(s[..lo], s[lo..hi + 1]);
    SumNatZeroIffAllZero(s[..lo]);
    SumNatZeroIffAllZero(s[hi + 1..]);
  }

  // Small facts about products of reals, kept apart so that each proof
  // sees only the multiplication it needs.

  lemma MulPositive(a: real, b: real)
    requires a > 0.0 && b > 0.0
    ensures a * b > 0.0
  {
  }

  lemma MulNonNegative(a: real, b: real)
    requires a >= 0.0 && b >= 0.0
    ensures a * b >= 0.0
  {
  }

  lemma MulEqual(a: real, x: real, y: real)
    requires x == y
    ensures a * x == a * y
  {
  }

  /** A product is zero only when one of its factors is. */
  lemma ZeroProduct(a: real, b: real)
    requires a * b == 0.0
    ensures a == 0.0 || b == 0.0
  {
    if a > 0.0 && b > 0.0 {
      MulPositive(a, b);
    } else if a > 0.0 && b < 0.0 {
      MulPositive(a, -b);
    } else if a < 0.0 && b > 0.0 {
      MulPositive(-a, b);
    } else if a < 0.0 && b < 0.0 {
      MulPositive(-a, -b);
    }
  }

  lemma ZeroProductFactor(a: real, k: real)
    requires k > 0.0 && a * k == 0.0
    ensures a == 0.0
  {
  }
}
