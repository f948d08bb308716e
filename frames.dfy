/** Tables as sequences of rows, and the column-wise operations a data frame
    offers: mapping a column, selecting rows by a boolean mask, concatenating
    frames. Every operation keeps the row order. */
module Frames {

  /** A nullable cell (pandas NaN / None). */
  datatype Option<+T> = None | Some(value: T)

  /** Applies `f` to every row, keeping the order (a column assignment). */
  function MapRows<T, U>(s: seq<T>, f: T -> U): (r: seq<U>)
    ensures |r| == |s|
    ensures forall i :: 0 <= i < |s| ==> r[i] == f(s[i])
  {
    if s == [] then [] else [f(s[0])] + MapRows(s[1..], f)
  }

  /** `a` is `b` with some rows removed and the others kept in their order. */
  predicate IsSubsequence<T(==)>(a: seq<T>, b: seq<T>)
    decreases |b|
  {
    a == [] || (b != [] && ((a[0] == b[0] && IsSubsequence(a[1..], b[1..])) || IsSubsequence(a, b[1..])))
  }

  /** Boolean-mask selection `df[mask]`: the rows satisfying `keep`, in order. */
  function Filter<T(!new)>(s: seq<T>, keep: T -> bool): (r: seq<T>)
    ensures |r| <= |s|
    ensures forall x :: x in r <==> x in s && keep(x)
  {
    if s == [] then []
    else if keep(s[0]) then [s[0]] + Filter(s[1..], keep)
    else Filter(s[1..], keep)
  }

  /** Keeps the rows that `f` maps to a value, replacing each by that value:
      a row-at-a-time description of a chain of maps and filters. */
  function Collect<T(!new), U(!new)>(s: seq<T>, f: T -> Option<U>): (r: seq<U>)
    ensures |r| <= |s|
    ensures forall y :: y in r <==> exists x :: x in s && f(x) == Some(y)
  {
    if s == [] then []
    else match f(s[0])
      case Some(y) => [y] + Collect(s[1..], f)
      case None => Collect(s[1..], f)
  }

  /** `pd.concat` of a list of frames, in list order. */
  function Flatten<T(!new)>(tables: seq<seq<T>>): (r: seq<T>)
    ensures |r| == SumOfLengths(tables)
    ensures forall x :: x in r <==> exists i :: 0 <= i < |tables| && x in tables[i]
  {
    if tables == [] then []
    else
      var rest := Flatten(tables[1..]);
      assert forall x :: (exists i :: 1 <= i < |tables| && x in tables[i]) ==> x in rest by {
        forall x | exists i :: 1 <= i < |tables| && x in tables[i] ensures x in rest {
          var i :| 1 <= i < |tables| && x in tables[i];
          assert x in tables[1..][i - 1];
        }
      }
      tables[0] + rest
  }

  function SumOfLengths<T>(tables: seq<seq<T>>): nat
  {
    if tables == [] then 0 else |tables[0]| + SumOfLengths(tables[1..])
  }

  /** A selection keeps the selected rows in their order. */
  lemma {:induction false} FilterIsSubsequence<T(!new)>(s: seq<T>, keep: T -> bool)
    ensures IsSubsequence(Filter(s, keep), s)
  {
    if s != [] {
      FilterIsSubsequence(s[1..], keep);
    }
  }

  lemma {:induction false} SubsequenceTransitive<T>(a: seq<T>, b: seq<T>, c: seq<T>)
    requires IsSubsequence(a, b) && IsSubsequence(b, c)
    ensures IsSubsequence(a, c)
    decreases |c|
  {
    if a != [] {
      assert b != [] && c != [];
      if b[0] == c[0] && IsSubsequence(b[1..], c[1..]) {
        if a[0] == b[0] && IsSubsequence(a[1..], b[1..]) {
          SubsequenceTransitive(a[1..], b[1..], c[1..]);
        } else {
          SubsequenceTransitive(a, b[1..], c[1..]);
        }
      } else {
        SubsequenceTransitive(a, b, c[1..]);
      }
    }
  }

  lemma {:induction false} MapRowsConcat<T, U>(a: seq<T>, b: seq<T>, f: T -> U)
    ensures MapRows(a + b, f) == MapRows(a, f) + MapRows(b, f)
  {
  }

  lemma {:induction false} FilterConcat<T(!new)>(a: seq<T>, b: seq<T>, keep: T -> bool)
    ensures Filter(a + b, keep) == Filter(a, keep) + Filter(b, keep)
  {
    if a == [] {
      assert a + b == b;
    } else {
      assert (a + b)[0] == a[0] && (a + b)[1..] == a[1..] + b;
      FilterConcat(a[1..], b, keep);
      if keep(a[0]) {
        assert [a[0]] + (Filter(a[1..], keep) + Filter(b, keep))
            == ([a[0]] + Filter(a[1..], keep)) + Filter(b, keep);
      }
    }
  }

  lemma {:induction false} CollectConcat<T(!new), U(!new)>(a: seq<T>, b: seq<T>, f: T -> Option<U>)
    ensures Collect(a + b, f) == Collect(a, f) + Collect(b, f)
  {
    if a == [] {
      assert a + b == b;
    } else {
      assert (a + b)[0] == a[0] && (a + b)[1..] == a[1..] + b;
      CollectConcat(a[1..], b, f);
      if f(a[0]).Some? {
        assert [f(a[0]).value] + (Collect(a[1..], f) + Collect(b, f))
            == ([f(a[0]).value] + Collect(a[1..], f)) + Collect(b, f);
      }
    }
  }

  lemma {:induction false} FilterFilter<T(!new)>(s: seq<T>, p: T -> bool, q: T -> bool, pq: T -> bool)
    requires forall x :: pq(x) == (p(x) && q(x))
    ensures Filter(Filter(s, p), q) == Filter(s, pq)
  {
    if s != [] {
      FilterFilter(s[1..], p, q, pq);
    }
  }

  /** Rows that `f` drops anyway may be filtered out beforehand. */
  lemma {:induction false} CollectAfterFilter<T(!new), U(!new)>(s: seq<T>, keep: T -> bool, f: T -> Option<U>)
    requires forall x :: !keep(x) ==> f(x).None?
    ensures Collect(Filter(s, keep), f) == Collect(s, f)
  {
    if s != [] {
      CollectAfterFilter(s[1..], keep, f);
    }
  }

  /** A mask true on every row selects the whole table. */
  lemma {:induction false} FilterAll<T(!new)>(s: seq<T>, keep: T -> bool)
    requires forall x :: x in s ==> keep(x)
    ensures Filter(s, keep) == s
  {
    if s != [] {
      assert s == [s[0]] + s[1..];
      FilterAll(s[1..], keep);
    }
  }

  /** A mask false on every row selects nothing. */
  lemma {:induction false} FilterNone<T(!new)>(s: seq<T>, keep: T -> bool)
    requires forall x :: x in s ==> !keep(x)
    ensures Filter(s, keep) == []
  {
    if s != [] {
      assert s == [s[0]] + s[1..];
      FilterNone(s[1..], keep);
    }
  }

  lemma CollectCons<T(!new), U(!new)>(s: seq<T>, f: T -> Option<U>)
    requires s != []
    ensures Collect(s, f) == (if f(s[0]).Some? then [f(s[0]).value] else []) + Collect(s[1..], f)
  {
  }

  lemma CollectPair<T(!new), U(!new)>(a: T, b: T, f: T -> Option<U>)
    requires f(a).Some? && f(b).Some?
    ensures Collect([a, b], f) == [f(a).value, f(b).value]
  {
    assert [a, b][1..] == [b];
    assert [b][1..] == [];
  }

  /** Mapping the rows first and then collecting is collecting through the
      composition. */
  lemma {:induction false} CollectAfterMap<T(!new), V(!new), U(!new)>(s: seq<T>, g: T -> V, f: V -> Option<U>, h: T -> Option<U>)
    requires forall x :: f(g(x)) == h(x)
    ensures Collect(MapRows(s, g), f) == Collect(s, h)
  {
    if s != [] {
      CollectAfterMap(s[1..], g, f, h);
      assert MapRows(s, g)[1..] == MapRows(s[1..], g);
    }
  }

  /** Masks that agree on the rows of a table select the same rows. */
  lemma {:induction false} FilterSameMask<T(!new)>(s: seq<T>, p: T -> bool, q: T -> bool)
    requires forall x :: x in s ==> p(x) == q(x)
    ensures Filter(s, p) == Filter(s, q)
  {
    if s != [] {
      FilterSameMask(s[1..], p, q);
    }
  }
}
