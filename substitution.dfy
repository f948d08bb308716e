/** Exact-value substitution on a column, as `Series.replace(old, new)` does it:
    a cell equal to `old` becomes `new`, every other cell is left alone (no
    substring matching). A list of pairs stands for a chain of such calls, the
    first pair applied first. */
module Substitution {

  type Pairs = seq<(string, string)>

  function Replace(v: string, from: string, to: string): (r: string)
    ensures r == to || r == v
    ensures (r == v) == (v != from || to == from)
  {
    if v == from then to else v
  }

  /** The chain `replace(p0) . replace(p1) . ...` applied to one cell. */
  function ReplaceAll(v: string, pairs: Pairs): string
    decreases |pairs|
  {
    if pairs == [] then v else ReplaceAll(Replace(v, pairs[0].0, pairs[0].1), pairs[1..])
  }

  /** A single table lookup: the target of the first pair whose source is `v`,
      or `v` itself when no pair has it as its source. */
  function Lookup(pairs: Pairs, v: string): (r: string)
    ensures r == v || exists i :: 0 <= i < |pairs| && pairs[i] == (v, r)
  {
    if pairs == [] then v
    else if pairs[0].0 == v then pairs[0].1
    else
      var r := Lookup(pairs[1..], v);
      assert r != v ==> exists i :: 1 <= i < |pairs| && pairs[i] == (v, r) by {
        if r != v {
          var i :| 0 <= i < |pairs[1..]| && pairs[1..][i] == (v, r);
          assert pairs[i + 1] == (v, r);
        }
      }
      r
  }

  predicate IsSource(pairs: Pairs, v: string)
  {
    exists i :: 0 <= i < |pairs| && pairs[i].0 == v
  }

  /** No target is the source of a LATER pair, so a replaced cell is never
      replaced again further down the chain. */
  predicate Chainless(pairs: Pairs)
  {
    forall i, j :: 0 <= i < j < |pairs| ==> pairs[i].1 != pairs[j].0
  }

  /** No target is the source of ANY pair. */
  predicate TargetsAreFinal(pairs: Pairs)
  {
    forall i, j :: 0 <= i < |pairs| && 0 <= j < |pairs| ==> pairs[i].1 != pairs[j].0
  }

  lemma {:induction false} LookupMiss(pairs: Pairs, v: string)
    requires !IsSource(pairs, v)
    ensures Lookup(pairs, v) == v
    ensures ReplaceAll(v, pairs) == v
  {
    if pairs != [] {
      assert pairs[0].0 != v;
      forall i | 0 <= i < |pairs| - 1 ensures pairs[1..][i].0 != v {
        assert pairs[1..][i] == pairs[i + 1];
      }
      LookupMiss(pairs[1..], v);
    }
  }

  lemma {:induction false} LookupHit(pairs: Pairs, i: nat)
    requires i < |pairs|
    requires forall j :: 0 <= j < i ==> pairs[j].0 != pairs[i].0
    ensures Lookup(pairs, pairs[i].0) == pairs[i].1
  {
    if i > 0 {
      LookupHit(pairs[1..], i - 1);
    }
  }

  /** The chain of replace calls equals one lookup when no target feeds a
      later source. */
  lemma {:induction false} ChainIsLookup(pairs: Pairs, v: string)
    requires Chainless(pairs)
    ensures ReplaceAll(v, pairs) == Lookup(pairs, v)
  {
    if pairs != [] {
      var rest := pairs[1..];
      assert Chainless(rest) by {
        forall i, j | 0 <= i < j < |rest| ensures rest[i].1 != rest[j].0 {
          assert rest[i] == pairs[i + 1] && rest[j] == pairs[j + 1];
        }
      }
      if pairs[0].0 == v {
        var t := pairs[0].1;
        forall j | 0 <= j < |rest| ensures rest[j].0 != t {
          assert rest[j] == pairs[j + 1];
        }
        LookupMiss(rest, t);
      } else {
        ChainIsLookup(rest, v);
      }
    }
  }

  /** When no target is a source, a looked-up value is never itself a source. */
  lemma {:induction false} LookupLeavesNoSource(pairs: Pairs, v: string)
    requires TargetsAreFinal(pairs)
    ensures IsSource(pairs, Lookup(pairs, v)) ==> Lookup(pairs, v) == v
  {
    var r := Lookup(pairs, v);
    if r != v {
      var i :| 0 <= i < |pairs| && pairs[i] == (v, r);
      forall j | 0 <= j < |pairs| ensures pairs[j].0 != r {
        assert pairs[i].1 == r;
      }
    }
  }

  /** Substituting twice is substituting once. */
  lemma {:induction false} LookupIdempotent(pairs: Pairs, v: string)
    requires TargetsAreFinal(pairs)
    ensures Lookup(pairs, Lookup(pairs, v)) == Lookup(pairs, v)
  {
    var r := Lookup(pairs, v);
    if r != v {
      LookupLeavesNoSource(pairs, v);
      LookupMiss(pairs, r);
    }
  }

  /** After the substitution no cell holds a source value. */
  lemma {:induction false} LookupRemovesSources(pairs: Pairs, v: string)
    requires TargetsAreFinal(pairs)
    ensures !IsSource(pairs, Lookup(pairs, v))
  {
    if IsSource(pairs, v) {
      var i :| 0 <= i < |pairs| && pairs[i].0 == v;
      LookupFindsSource(pairs, i);
      LookupLeavesNoSource(pairs, v);
    } else {
      LookupMiss(pairs, v);
    }
  }

  lemma {:induction false} LookupFindsSource(pairs: Pairs, i: nat)
    requires TargetsAreFinal(pairs)
    requires i < |pairs|
    ensures Lookup(pairs, pairs[i].0) != pairs[i].0
  {
    if pairs[0].0 == pairs[i].0 {
      assert pairs[0].1 != pairs[i].0;
    } else {
      assert i > 0;
      var rest := pairs[1..];
      assert TargetsAreFinal(rest) by {
        forall a, b | 0 <= a < |rest| && 0 <= b < |rest| ensures rest[a].1 != rest[b].0 {
          assert rest[a] == pairs[a + 1] && rest[b] == pairs[b + 1];
        }
      }
      LookupFindsSource(rest, i - 1);
    }
  }
}
