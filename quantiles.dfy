/** Minimum, maximum and linearly interpolated quantiles of an integer column. */
module Quantiles {

  predicate Sorted(s: seq<int>) {
    forall i, j :: 0 <= i <= j < |s| ==> s[i] <= s[j]
  }

  /** `x` inserted into a sorted sequence. */
  function Insert(x: int, s: seq<int>): (r: seq<int>)
    requires Sorted(s)
    ensures Sorted(r) && multiset(r) == multiset(s) + multiset{x}
  {
    if s == [] || x <= s[0] then [x] + s
    else
      var t := Insert(x, s[1..]);
      assert s == [s[0]] + s[1..];
      LowerBound(s[0], t, s[1..], x);
      [s[0]] + t
  }

  /** A lower bound of `u` and of `x` bounds every element of a permutation of `u + [x]`. */
  lemma LowerBound(a: int, t: seq<int>, u: seq<int>, x: int)
    requires multiset(t) == multiset(u) + multiset{x}
    requires a <= x && forall i :: 0 <= i < |u| ==> a <= u[i]
    ensures forall k :: 0 <= k < |t| ==> a <= t[k]
  {
    forall k | 0 <= k < |t|
      ensures a <= t[k]
    {
      assert t[k] in multiset(t);
      if t[k] != x {
        assert t[k] in multiset(u);
        assert t[k] in u;
      }
    }
  }

  /** The column in ascending order, as the quantile computation sorts it. */
  function Sort(s: seq<int>): (r: seq<int>)
    ensures Sorted(r) && multiset(r) == multiset(s) && |r| == |s|
  {
    if s == [] then []
    else
      assert s == [s[0]] + s[1..];
      Insert(s[0], Sort(s[1..]))
  }

  /** `min()` of a non-empty column. */
  function Min(s: seq<int>): (m: int)
    requires |s| > 0
    ensures m in s && forall i :: 0 <= i < |s| ==> m <= s[i]
  {
    if |s| == 1 then s[0]
    else
      var m := Min(s[1..]);
      assert forall i :: 1 <= i < |s| ==> s[i] == s[1..][i - 1];
      if s[0] <= m then s[0] else m
  }

  /** `max()` of a non-empty column. */
  function Max(s: seq<int>): (m: int)
    requires |s| > 0
    ensures m in s && forall i :: 0 <= i < |s| ==> s[i] <= m
  {
    if |s| == 1 then s[0]
    else
      var m := Max(s[1..]);
      assert forall i :: 1 <= i < |s| ==> s[i] == s[1..][i - 1];
      if m <= s[0] then s[0] else m
  }

  /** Sorting leaves the minimum first and the maximum last. */
  lemma SortEnds(s: seq<int>)
    requires |s| > 0
    ensures Sort(s)[0] == Min(s) && Sort(s)[|s| - 1] == Max(s)
  {
    SortFirst(s);
    SortLast(s);
  }

  lemma SortFirst(s: seq<int>)
    requires |s| > 0
    ensures Sort(s)[0] == Min(s)
  {
    var t := Sort(s);
    var m := Min(s);
    assert t[0] in multiset(t);
    assert t[0] in s;
    assert m in multiset(s);
    assert m in t;
  }

  lemma SortLast(s: seq<int>)
    requires |s| > 0
    ensures Sort(s)[|s| - 1] == Max(s)
  {
    var t := Sort(s);
    var m := Max(s);
    var last := |s| - 1;
    assert |t| == |s|;
    assert t[last] in multiset(t);
    assert t[last] in multiset(s);
    var i :| 0 <= i < |s| && s[i] == t[last];
    assert s[i] <= m;
    assert m in multiset(t);
    var k :| 0 <= k < |t| && t[k] == m;
    assert t[k] <= t[last];
  }

  /** An already sorted column is its own sorted order. */
  lemma {:induction false} SortOfSorted(s: seq<int>)
    requires Sorted(s)
    ensures Sort(s) == s
  {
    if s != [] {
      SortOfSorted(s[1..]);
      assert s == [s[0]] + s[1..];
    }
  }

  /** `(n - 1) * p`: the virtual position of the `p` quantile in a sorted column of `n` values. */
  function Position(n: nat, p: real): (h: real)
    requires n > 0 && 0.0 <= p <= 1.0
    ensures 0.0 <= h <= (n - 1) as real
  {
    (n - 1) as real * p
  }

  /**
   * Linear interpolation at virtual position `h` of a column: walking one rank per unit of
   * `h`, the value at the rank reached plus the remaining fraction of the step to the next.
   */
  function At(s: seq<int>, h: real): real
    requires |s| > 0 && 0.0 <= h <= (|s| - 1) as real
    decreases |s|
  {
    if |s| == 1 then s[0] as real
    else if h < 1.0 then s[0] as real + h * (s[1] - s[0]) as real
    else At(s[1..], h - 1.0)
  }

  /** `quantile(p)` of the column (pandas' default linear method). */
  function Quantile(s: seq<int>, p: real): real
    requires |s| > 0 && 0.0 <= p <= 1.0
  {
    At(Sort(s), Position(|s|, p))
  }

  /**
   * The walk computes the closed form pandas uses: with `lo` the integer part of `h`, the value
   * at rank `lo` plus the fractional part of `h` times the step to rank `lo + 1`, or the last
   * value when `lo` is the last rank.
   */
  lemma {:induction false} AtClosedForm(s: seq<int>, h: real)
    requires |s| > 0 && 0.0 <= h <= (|s| - 1) as real
    ensures 0 <= h.Floor < |s|
    ensures h.Floor + 1 < |s| ==> At(s, h) == s[h.Floor] as real + (h - h.Floor as real) * (s[h.Floor + 1] - s[h.Floor]) as real
    ensures h.Floor + 1 == |s| ==> At(s, h) == s[|s| - 1] as real
  {
    if |s| > 1 && h >= 1.0 {
      AtClosedForm(s[1..], h - 1.0);
      assert (h - 1.0).Floor == h.Floor - 1;
    }
  }

  /** Walking `k` whole ranks: the position `k + f` of a column is the position `f` of its tail. */
  lemma {:induction false} AtSkip(s: seq<int>, k: nat, f: real)
    requires k + 1 < |s| && 0.0 <= f < 1.0
    ensures At(s, k as real + f) == At(s[k..], f)
  {
    if k > 0 {
      assert At(s, k as real + f) == At(s[1..], (k - 1) as real + f);
      AtSkip(s[1..], k - 1, f);
      assert s[1..][k - 1..] == s[k..];
    } else {
      assert s[0..] == s;
    }
  }

  lemma SortedTail(s: seq<int>)
    requires |s| > 0 && Sorted(s)
    ensures Sorted(s[1..])
  {
    forall i, j | 0 <= i <= j < |s| - 1
      ensures s[1..][i] <= s[1..][j]
    {
      assert s[1..][i] == s[i + 1] && s[1..][j] == s[j + 1];
    }
  }

  lemma MulMonotone(a: real, b: real, d: real)
    requires a <= b && 0.0 <= d
    ensures a * d <= b * d
  {
    assert b * d - a * d == (b - a) * d;
  }

  /** On a sorted column, every interpolated value lies between the first and last values. */
  lemma {:induction false} AtBetween(s: seq<int>, h: real)
    requires |s| > 0 && 0.0 <= h <= (|s| - 1) as real && Sorted(s)
    ensures s[0] as real <= At(s, h) <= s[|s| - 1] as real
  {
    if |s| > 1 {
      assert s[0] <= s[1] <= s[|s| - 1];
      if h < 1.0 {
        var d := (s[1] - s[0]) as real;
        assert At(s, h) == s[0] as real + h * d;
        MulMonotone(0.0, h, d);
        MulMonotone(h, 1.0, d);
        assert 0.0 <= h * d <= d;
      } else {
        assert At(s, h) == At(s[1..], h - 1.0);
        SortedTail(s);
        AtBetween(s[1..], h - 1.0);
        assert s[1..][0] == s[1] && s[1..][|s| - 2] == s[|s| - 1];
      }
    }
  }

  /** On a sorted column, interpolated values grow with the position. */
  lemma {:induction false} AtMonotone(s: seq<int>, g: real, h: real)
    requires |s| > 0 && 0.0 <= g <= h <= (|s| - 1) as real && Sorted(s)
    ensures At(s, g) <= At(s, h)
  {
    if |s| > 1 {
      if h < 1.0 {
        AtFirstStep(s, g, h);
      } else {
        SortedTail(s);
        if g < 1.0 {
          AtFirstStep(s, g, 1.0);
          AtBetween(s[1..], h - 1.0);
        } else {
          AtMonotone(s[1..], g - 1.0, h - 1.0);
        }
      }
    }
  }

  /** Within the first step, interpolation grows with the position, up to the second value. */
  lemma AtFirstStep(s: seq<int>, g: real, h: real)
    requires |s| > 1 && 0.0 <= g <= h <= 1.0 && Sorted(s)
    ensures g < 1.0 ==> At(s, g) == s[0] as real + g * (s[1] - s[0]) as real
    ensures g < 1.0 ==> At(s, g) <= s[1] as real
    ensures h < 1.0 ==> At(s, g) <= At(s, h)
  {
    var d := (s[1] - s[0]) as real;
    assert s[0] <= s[1];
    if g < 1.0 {
      assert At(s, g) == s[0] as real + g * d;
      MulMonotone(g, 1.0, d);
      assert g * d <= d;
    }
    if h < 1.0 {
      assert At(s, h) == s[0] as real + h * d;
      MulMonotone(g, h, d);
    }
  }

  lemma AtStart(s: seq<int>)
    requires |s| > 0
    ensures At(s, 0.0) == s[0] as real
  {
  }

  lemma {:induction false} AtEnd(s: seq<int>)
    requires |s| > 0
    ensures At(s, (|s| - 1) as real) == s[|s| - 1] as real
  {
    if |s| > 1 {
      AtEnd(s[1..]);
      assert (|s| - 1) as real - 1.0 == (|s[1..]| - 1) as real;
    }
  }

  lemma PositionMonotone(n: nat, p: real, q: real)
    requires n > 0 && 0.0 <= p <= q <= 1.0
    ensures Position(n, p) <= Position(n, q)
  {
    MulMonotone(p, q, (n - 1) as real);
  }

  /** The quantile at 0 is the minimum and the quantile at 1 is the maximum. */
  lemma QuantileEnds(s: seq<int>)
    requires |s| > 0
    ensures Quantile(s, 0.0) == Min(s) as real && Quantile(s, 1.0) == Max(s) as real
  {
    SortEnds(s);
    assert Position(|s|, 0.0) == 0.0;
    assert Position(|s|, 1.0) == (|s| - 1) as real;
    AtStart(Sort(s));
    AtEnd(Sort(s));
  }

  /** Quantiles grow with `p`. */
  lemma QuantileMonotone(s: seq<int>, p: real, q: real)
    requires |s| > 0 && 0.0 <= p <= q <= 1.0
    ensures Quantile(s, p) <= Quantile(s, q)
  {
    PositionMonotone(|s|, p, q);
    AtMonotone(Sort(s), Position(|s|, p), Position(|s|, q));
  }

  /** Every quantile lies between the minimum and the maximum, and quantiles grow with `p`. */
  lemma QuantileOrdered(s: seq<int>, p: real, q: real)
    requires |s| > 0 && 0.0 <= p <= q <= 1.0
    ensures Min(s) as real <= Quantile(s, p) <= Quantile(s, q) <= Max(s) as real
  {
    QuantileEnds(s);
    QuantileMonotone(s, 0.0, p);
    QuantileMonotone(s, p, q);
    QuantileMonotone(s, q, 1.0);
  }
}
