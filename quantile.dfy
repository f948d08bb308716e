/** The quantile of a numeric column, computed the way pandas' `Series.quantile`
    does by default (numpy's "linear" method): sort the values, take the
    virtual index h = (n - 1) * p and interpolate linearly between the two
    values around it. Coordinates are exact reals here. */
module Quantiles {

  /** A quantile level. */
  type Probability = p: real | 0.0 <= p <= 1.0

  predicate Sorted(s: seq<real>)
  {
    forall i, j :: 0 <= i <= j < |s| ==> s[i] <= s[j]
  }

  function Insert(x: real, s: seq<real>): (r: seq<real>)
    ensures multiset(r) == multiset(s) + multiset{x}
  {
    if s == [] || x <= s[0] then [x] + s
    else
      assert s == [s[0]] + s[1..];
      [s[0]] + Insert(x, s[1..])
  }

  lemma {:induction false} InsertSorted(x: real, s: seq<real>)
    requires Sorted(s)
    ensures Sorted(Insert(x, s))
  {
    if s != [] && s[0] < x {
      var rest := Insert(x, s[1..]);
      InsertSorted(x, s[1..]);
      assert s == [s[0]] + s[1..];
      forall y | y in rest ensures s[0] <= y {
        assert y in multiset(rest);
        if y != x {
          assert y in s[1..];
          var k :| 0 <= k < |s[1..]| && s[1..][k] == y;
          assert s[k + 1] == y;
        }
      }
      var r := [s[0]] + rest;
      forall i, j | 0 <= i <= j < |r| ensures r[i] <= r[j] {
        if i == 0 {
          if j > 0 {
            assert r[j] == rest[j - 1] && rest[j - 1] in rest;
          }
        } else {
          assert r[i] == rest[i - 1] && r[j] == rest[j - 1];
        }
      }
    }
  }

  /** The values in ascending order (what `np.sort` returns). */
  function Sort(s: seq<real>): (r: seq<real>)
    ensures Sorted(r)
    ensures multiset(r) == multiset(s)
  {
    if s == [] then []
    else
      assert s == [s[0]] + s[1..];
      InsertSorted(s[0], Sort(s[1..]));
      Insert(s[0], Sort(s[1..]))
  }

  function Min(xs: seq<real>): (m: real)
    requires xs != []
    ensures m in xs
    ensures forall x :: x in xs ==> m <= x
  {
    if |xs| == 1 then xs[0]
    else
      var m := Min(xs[1..]);
      assert xs == [xs[0]] + xs[1..];
      if xs[0] <= m then xs[0] else m
  }

  function Max(xs: seq<real>): (m: real)
    requires xs != []
    ensures m in xs
    ensures forall x :: x in xs ==> x <= m
  {
    if |xs| == 1 then xs[0]
    else
      var m := Max(xs[1..]);
      assert xs == [xs[0]] + xs[1..];
      if m <= xs[0] then xs[0] else m
  }

  /** The virtual index (n - 1) * p, its floor, and the fraction past it. */
  function VirtualIndex(n: nat, p: real): (h: real)
    requires n > 0 && 0.0 <= p <= 1.0
    ensures 0.0 <= h <= (n - 1) as real
  {
    NonNegativeProduct((n - 1) as real, p);
    NonNegativeProduct((n - 1) as real, 1.0 - p);
    (n - 1) as real * p
  }

  lemma NonNegativeProduct(a: real, b: real)
    requires 0.0 <= a && 0.0 <= b
    ensures 0.0 <= a * b
  {
  }

  /** Linear interpolation on a sorted, non-empty sequence. */
  function Interpolate(s: seq<real>, p: real): (q: real)
    requires Sorted(s) && s != [] && 0.0 <= p <= 1.0
    ensures s[0] <= q <= s[|s| - 1]
  {
    var h := VirtualIndex(|s|, p);
    var i := h.Floor;
    if i + 1 < |s| then
      var f := h - i as real;
      NonNegativeProduct(f, s[i + 1] - s[i]);
      NonNegativeProduct(1.0 - f, s[i + 1] - s[i]);
      s[i] + f * (s[i + 1] - s[i])
    else s[i]
  }

  /** The sorted values' first and last entries are the minimum and maximum. */
  lemma SortedEnds(xs: seq<real>, s: seq<real>)
    requires xs != [] && Sorted(s) && multiset(s) == multiset(xs)
    ensures s != [] && s[0] == Min(xs) && s[|s| - 1] == Max(xs)
  {
    assert |s| == |multiset(s)| == |xs|;
    assert s[0] in multiset(xs) && s[|s| - 1] in multiset(xs);
    assert Min(xs) in multiset(s) && Max(xs) in multiset(s);
    var lo :| 0 <= lo < |s| && s[lo] == Min(xs);
    var hi :| 0 <= hi < |s| && s[hi] == Max(xs);
    assert s[0] <= s[lo] && s[hi] <= s[|s| - 1];
    assert s[0] in xs && s[|s| - 1] in xs;
    assert Min(xs) <= s[0] && s[|s| - 1] <= Max(xs);
  }

  /** `Series.quantile(p)`. The quantile of no values is 0.0 here where pandas
      gives NaN; a filter comparing rows of an empty table against it keeps
      nothing either way. */
  function Quantile(xs: seq<real>, p: Probability): (q: real)
    ensures xs != [] ==> Min(xs) <= q <= Max(xs)
  {
    if xs == [] then 0.0
    else
      var s := Sort(xs);
      SortedEnds(xs, s);
      Interpolate(s, p)
  }

  /** The 0-quantile is the minimum and the 1-quantile the maximum. */
  lemma QuantileEndpoints(xs: seq<real>)
    requires xs != []
    ensures Quantile(xs, 0.0) == Min(xs)
    ensures Quantile(xs, 1.0) == Max(xs)
  {
    var s := Sort(xs);
    SortedEnds(xs, s);
    var h0 := VirtualIndex(|s|, 0.0);
    assert h0 == 0.0;
    var h1 := VirtualIndex(|s|, 1.0);
    assert h1 == (|s| - 1) as real;
  }

  lemma InterpolateBracket(s: seq<real>, p: real)
    requires Sorted(s) && s != [] && 0.0 <= p <= 1.0
    ensures var i := VirtualIndex(|s|, p).Floor;
      0 <= i < |s| && s[i] <= Interpolate(s, p) && (i + 1 < |s| ==> Interpolate(s, p) <= s[i + 1])
  {
    var h := VirtualIndex(|s|, p);
    var i := h.Floor;
    if i + 1 < |s| {
      var f := h - i as real;
      NonNegativeProduct(f, s[i + 1] - s[i]);
      NonNegativeProduct(1.0 - f, s[i + 1] - s[i]);
    }
  }

  lemma InterpolateMonotone(s: seq<real>, p1: real, p2: real)
    requires Sorted(s) && s != [] && 0.0 <= p1 <= p2 <= 1.0
    ensures Interpolate(s, p1) <= Interpolate(s, p2)
  {
    var n := |s|;
    var h1, h2 := VirtualIndex(n, p1), VirtualIndex(n, p2);
    NonNegativeProduct((n - 1) as real, p2 - p1);
    assert h1 <= h2;
    var i1, i2 := h1.Floor, h2.Floor;
    InterpolateBracket(s, p1);
    InterpolateBracket(s, p2);
    if i1 == i2 {
      if i1 + 1 < n {
        NonNegativeProduct(h2 - h1, s[i1 + 1] - s[i1]);
        assert Interpolate(s, p2) - Interpolate(s, p1) == (h2 - h1) * (s[i1 + 1] - s[i1]);
      }
    } else {
      assert i1 + 1 <= i2;
    }
  }

  /** A higher probability never gives a lower quantile, so [q(lo), q(hi)]
      is a genuine band whenever lo <= hi. */
  lemma QuantileMonotone(xs: seq<real>, p1: Probability, p2: Probability)
    requires p1 <= p2
    ensures Quantile(xs, p1) <= Quantile(xs, p2)
  {
    if xs != [] {
      InterpolateMonotone(Sort(xs), p1, p2);
    }
  }

  lemma SortedHead(s: seq<real>, x: real)
    requires Sorted(s) && x in multiset(s)
    ensures s[0] <= x
  {
    var k :| 0 <= k < |s| && s[k] == x;
  }

  lemma SortedTail(s: seq<real>)
    requires Sorted(s) && s != []
    ensures Sorted(s[1..])
  {
    forall i, j | 0 <= i <= j < |s| - 1 ensures s[1..][i] <= s[1..][j] {
      assert s[1..][i] == s[i + 1] && s[1..][j] == s[j + 1];
    }
  }

  lemma MultisetTail(s: seq<real>)
    requires s != []
    ensures multiset(s[1..]) == multiset(s) - multiset{s[0]}
  {
    assert s == [s[0]] + s[1..];
  }

  lemma {:induction false} SortedUnique(a: seq<real>, b: seq<real>)
    requires Sorted(a) && Sorted(b) && multiset(a) == multiset(b)
    ensures a == b
    decreases |a|
  {
    assert |a| == |multiset(a)| == |b|;
    if a != [] {
      assert a[0] == b[0] by {
        assert a[0] in a && b[0] in b;
        SortedHead(a, b[0]);
        SortedHead(b, a[0]);
      }
      assert a[1..] == b[1..] by {
        MultisetTail(a);
        MultisetTail(b);
        SortedTail(a);
        SortedTail(b);
        SortedUnique(a[1..], b[1..]);
      }
      assert a == [a[0]] + a[1..] && b == [b[0]] + b[1..];
    }
  }

  /** The quantile depends only on the values, not on the order of the rows. */
  lemma QuantileIgnoresOrder(xs: seq<real>, ys: seq<real>, p: Probability)
    requires multiset(xs) == multiset(ys)
    ensures Quantile(xs, p) == Quantile(ys, p)
  {
    assert |xs| == |multiset(xs)| == |ys|;
    SortedUnique(Sort(xs), Sort(ys));
  }

  lemma PositiveProduct(a: real, b: real)
    requires 0.0 < a && 0.0 < b
    ensures 0.0 < a * b
  {}

  /** On two distinct sorted points, a fraction strictly inside 0 .. 1
      interpolates strictly between them. */
  lemma InterpolateTwo(s: seq<real>, p: real)
    requires Sorted(s) && |s| == 2 && s[0] < s[1] && 0.0 < p < 1.0
    ensures s[0] < Interpolate(s, p) < s[1]
  {
    var d := s[1] - s[0];
    assert VirtualIndex(|s|, p) == 1.0 * p == p;
    assert p.Floor == 0;
    assert Interpolate(s, p) == s[0] + (p - 0 as real) * d;
    PositiveProduct(p, d);
    PositiveProduct(1.0 - p, d);
    assert (p - 0 as real) * d == p * d;
    assert (1.0 - p) * d == d - p * d;
    assert 0.0 < p * d < d;
    assert s[0] + p * d < s[1];
  }

  /** Two different values: a quantile strictly inside 0 .. 1 lies strictly
      between them, so it equals neither. */
  lemma QuantileOfTwo(x: real, y: real, p: Probability)
    requires x != y && 0.0 < p < 1.0
    ensures (if x < y then x else y) < Quantile([x, y], p) < (if x < y then y else x)
  {
    var s := Sort([x, y]);
    SortedEnds([x, y], s);
    assert |s| == |multiset(s)| == |multiset([x, y])| == 2;
    InterpolateTwo(s, p);
  }
}
