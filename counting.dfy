/** The counts the charts are drawn from: `value_counts` of one column, and
    `groupby(["operator", "circle", "radio"])["cid"].count()`. A count table
    is a sequence of (key, count) rows; the order pandas sorts it into is not
    modelled, only its keys and counts. */
module Counting {
  import opened Frames
  import opened Towers
  import opened Substitution
  import opened Cleaning
  import opened Trimming
  import opened Pipeline

  type Counts<K> = seq<(K, nat)>

  predicate HasKey<K(==,!new)>(t: Counts<K>, k: K)
  {
    exists i :: 0 <= i < |t| && t[i].0 == k
  }

  predicate DistinctKeys<K(==,!new)>(t: Counts<K>)
  {
    forall i, j :: 0 <= i < j < |t| ==> t[i].0 != t[j].0
  }

  /** The count a table gives for `k`: 0 when `k` is not a key. */
  function Count<K(==,!new)>(t: Counts<K>, k: K): nat
  {
    if t == [] then 0 else (if t[0].0 == k then t[0].1 else 0) + Count(t[1..], k)
  }

  /** The sum of the count column. */
  function Total<K>(t: Counts<K>): nat
  {
    if t == [] then 0 else t[0].1 + Total(t[1..])
  }

  /** Adds `h` to the count of `k`, opening a row for `k` when it has none. */
  function Bump<K(==,!new)>(t: Counts<K>, k: K, h: nat): (r: Counts<K>)
    ensures forall j :: Count(r, j) == Count(t, j) + (if j == k then h else 0)
    ensures forall j :: HasKey(r, j) <==> HasKey(t, j) || j == k
    ensures DistinctKeys(t) ==> DistinctKeys(r)
    ensures Total(r) == Total(t) + h
  {
    if t == [] then
      var r := [(k, h)];
      assert r[0].0 == k;
      r
    else
      var r := if t[0].0 == k then [(k, t[0].1 + h)] + t[1..] else [t[0]] + Bump(t[1..], k, h);
      assert r[1..] == if t[0].0 == k then t[1..] else Bump(t[1..], k, h);
      HasKeyCons(t);
      HasKeyCons(r);
      DistinctCons(t);
      DistinctCons(r);
      r
  }

  lemma HasKeyCons<K(!new)>(t: Counts<K>)
    requires t != []
    ensures forall j :: HasKey(t, j) <==> t[0].0 == j || HasKey(t[1..], j)
  {
    forall j | HasKey(t, j) && t[0].0 != j ensures HasKey(t[1..], j) {
      var i :| 0 <= i < |t| && t[i].0 == j;
      assert t[1..][i - 1].0 == j;
    }
    forall j | HasKey(t[1..], j) ensures HasKey(t, j) {
      var i :| 0 <= i < |t[1..]| && t[1..][i].0 == j;
      assert t[i + 1].0 == j;
    }
  }

  lemma DistinctCons<K(!new)>(t: Counts<K>)
    requires t != []
    ensures DistinctKeys(t) <==> !HasKey(t[1..], t[0].0) && DistinctKeys(t[1..])
  {
    if DistinctKeys(t) {
      forall i | 0 <= i < |t| - 1 ensures t[1..][i].0 != t[0].0 {
        assert t[1..][i] == t[i + 1];
      }
      forall a, b | 0 <= a < b < |t| - 1 ensures t[1..][a].0 != t[1..][b].0 {
        assert t[1..][a] == t[a + 1] && t[1..][b] == t[b + 1];
      }
    }
    if !HasKey(t[1..], t[0].0) && DistinctKeys(t[1..]) {
      forall a, b | 0 <= a < b < |t| ensures t[a].0 != t[b].0 {
        assert t[b] == t[1..][b - 1];
        if a > 0 {
          assert t[a] == t[1..][a - 1];
        }
      }
    }
  }

  /** The number of rows with key `k` that `hit`. */
  function Hits<T, K(==,!new)>(s: seq<T>, key: T -> Option<K>, hit: T -> bool, k: K): nat
  {
    if s == [] then 0 else (if key(s[0]) == Some(k) && hit(s[0]) then 1 else 0) + Hits(s[1..], key, hit, k)
  }

  /** The number of rows with a non-null key that `hit`. */
  function AllHits<T, K>(s: seq<T>, key: T -> Option<K>, hit: T -> bool): nat
  {
    if s == [] then 0 else (if key(s[0]).Some? && hit(s[0]) then 1 else 0) + AllHits(s[1..], key, hit)
  }

  /** Counts, per key, the rows that `hit`, over the rows whose `key` is not
      null; a key appears as soon as one row has it, even with no hit. */
  function Tally<T(!new), K(==,!new)>(s: seq<T>, key: T -> Option<K>, hit: T -> bool): (t: Counts<K>)
    ensures DistinctKeys(t)
    ensures forall k :: HasKey(t, k) <==> exists x :: x in s && key(x) == Some(k)
    ensures forall k :: Count(t, k) == Hits(s, key, hit, k)
    ensures Total(t) == AllHits(s, key, hit)
  {
    if s == [] then []
    else
      var rest := Tally(s[1..], key, hit);
      assert forall x :: x in s <==> x == s[0] || x in s[1..] by {
        assert s == [s[0]] + s[1..];
      }
      if key(s[0]).Some? then Bump(rest, key(s[0]).value, if hit(s[0]) then 1 else 0) else rest
  }

  /** Hits are the rows a mask selects. */
  lemma {:induction false} HitsAreSelected<T(!new), K(!new)>(s: seq<T>, key: T -> Option<K>, hit: T -> bool, k: K, mask: T -> bool)
    requires forall x :: mask(x) == (key(x) == Some(k) && hit(x))
    ensures Hits(s, key, hit, k) == |Filter(s, mask)|
  {
    if s != [] {
      HitsAreSelected(s[1..], key, hit, k, mask);
    }
  }

  lemma {:induction false} AllHitsAreSelected<T(!new), K>(s: seq<T>, key: T -> Option<K>, hit: T -> bool, mask: T -> bool)
    requires forall x :: mask(x) == (key(x).Some? && hit(x))
    ensures AllHits(s, key, hit) == |Filter(s, mask)|
  {
    if s != [] {
      AllHitsAreSelected(s[1..], key, hit, mask);
    }
  }

  /** In a table with distinct keys, the count of a row's key is that row's
      count. */
  lemma {:induction false} CountOfRow<K(!new)>(t: Counts<K>, i: nat)
    requires DistinctKeys(t) && i < |t|
    ensures Count(t, t[i].0) == t[i].1
  {
    var k := t[i].0;
    if i == 0 {
      CountAbsent(t[1..], k);
    } else {
      assert t[0].0 != k;
      assert DistinctKeys(t[1..]) by {
        forall a, b | 0 <= a < b < |t| - 1 ensures t[1..][a].0 != t[1..][b].0 {
          assert t[1..][a] == t[a + 1] && t[1..][b] == t[b + 1];
        }
      }
      CountOfRow(t[1..], i - 1);
    }
  }

  lemma {:induction false} CountAbsent<K(!new)>(t: Counts<K>, k: K)
    requires forall i :: 0 <= i < |t| ==> t[i].0 != k
    ensures Count(t, k) == 0
  {
    if t != [] {
      CountAbsent(t[1..], k);
    }
  }

  /** Counting a key on a selection of the rows gives the same count as on all
      the rows, when every row with that key is selected. */
  lemma {:induction false} HitsOfSelection<T(!new), K(!new)>(s: seq<T>, sel: T -> bool, key: T -> Option<K>, hit: T -> bool, k: K)
    requires forall x :: key(x) == Some(k) ==> sel(x)
    ensures Hits(Filter(s, sel), key, hit, k) == Hits(s, key, hit, k)
    ensures (exists x :: x in Filter(s, sel) && key(x) == Some(k)) <==> (exists x :: x in s && key(x) == Some(k))
  {
    if s != [] {
      HitsOfSelection(s[1..], sel, key, hit, k);
    }
  }

  // ---------------------------------------------------------------------
  // `value_counts_df`

  datatype Column = Radio | Operator | Circle

  /** A row's cell in one of the counted columns. */
  function Cell(r: Row, col: Column): Option<string>
  {
    match col
    case Radio => Some(r.radio)
    case Operator => r.operator
    case Circle => r.circle
  }

  /** `value_counts_df(df, col)`: one (value, count) row per distinct
      non-null value of the column. */
  function ValueCountsDf(rows: seq<Row>, col: Column): Counts<string>
  {
    Tally(rows, (r: Row) => Cell(r, col), (r: Row) => true)
  }

  /** One row per distinct non-null value of the column, each with the number
      of rows holding that value (at least one); the counts add up to the
      number of non-null cells. */
  lemma ValueCountsSpec(rows: seq<Row>, col: Column)
    ensures var t := ValueCountsDf(rows, col);
      && DistinctKeys(t)
      && (forall v :: HasKey(t, v) <==> exists r :: r in rows && Cell(r, col) == Some(v))
      && (forall i :: 0 <= i < |t| ==> 0 < t[i].1 == |Filter(rows, (r: Row) => Cell(r, col) == Some(t[i].0))|)
      && Total(t) == |Filter(rows, (r: Row) => Cell(r, col).Some?)|
  {
    var key := (r: Row) => Cell(r, col);
    var hit := (r: Row) => true;
    var t := ValueCountsDf(rows, col);
    forall i | 0 <= i < |t|
      ensures 0 < t[i].1 == |Filter(rows, (r: Row) => Cell(r, col) == Some(t[i].0))|
    {
      var v := t[i].0;
      CountOfRow(t, i);
      HitsAreSelected(rows, key, hit, v, (r: Row) => Cell(r, col) == Some(v));
      assert HasKey(t, v);
      var r :| r in rows && Cell(r, col) == Some(v);
      assert r in Filter(rows, (r: Row) => Cell(r, col) == Some(v));
    }
    AllHitsAreSelected(rows, key, hit, (r: Row) => Cell(r, col).Some?);
  }

  // ---------------------------------------------------------------------
  // `groupby(["operator", "circle", "radio"])["cid"].count()`

  /** The group key of a row; pandas leaves out rows with a null key cell. */
  function GroupKey(r: Row): Option<(string, string, string)>
  {
    if r.operator.Some? && r.circle.Some? then Some((r.operator.value, r.circle.value, r.radio)) else None
  }

  /** The group count of a table, used for `df_corrected` and for the
      selected `circle_dict` entry alike: per (operator, circle, radio) key,
      the number of rows with a non-null `cid`. */
  function GroupCount(rows: seq<Row>): Counts<(string, string, string)>
  {
    Tally(rows, GroupKey, (r: Row) => r.cid.Some?)
  }

  /** One row per key present in the table; its count is the number of rows
      with that key whose `cid` is not null (0 when all are null), and the
      counts add up to the rows with a full key and a `cid`. */
  lemma GroupCountSpec(rows: seq<Row>)
    ensures var t := GroupCount(rows);
      && DistinctKeys(t)
      && (forall k :: HasKey(t, k) <==> exists r :: r in rows && GroupKey(r) == Some(k))
      && (forall i :: 0 <= i < |t| ==> t[i].1 == |Filter(rows, (r: Row) => GroupKey(r) == Some(t[i].0) && r.cid.Some?)|)
      && Total(t) == |Filter(rows, (r: Row) => GroupKey(r).Some? && r.cid.Some?)|
  {
    var t := GroupCount(rows);
    forall i | 0 <= i < |t|
      ensures t[i].1 == |Filter(rows, (r: Row) => GroupKey(r) == Some(t[i].0) && r.cid.Some?)|
    {
      var k := t[i].0;
      CountOfRow(t, i);
      HitsAreSelected(rows, GroupKey, (r: Row) => r.cid.Some?, k, (r: Row) => GroupKey(r) == Some(k) && r.cid.Some?);
    }
    AllHitsAreSelected(rows, GroupKey, (r: Row) => r.cid.Some?, (r: Row) => GroupKey(r).Some? && r.cid.Some?);
  }

  // ---------------------------------------------------------------------
  // The counts of the corrected table

  /** On `df_corrected` no cell of the operator, circle or radio column is
      null, so each column's value counts add up to the number of rows, and
      the group counts add up to the rows with a `cid`. */
  lemma CorrectedCountTotals(towers: seq<TowerRow>, carriers: Carriers, col: Column)
    ensures var c := Corrected(Cleaned(towers, carriers));
      Total(ValueCountsDf(c, col)) == |c|
      && Total(GroupCount(c)) == |Filter(c, (r: Row) => r.cid.Some?)|
  {
    CorrectedCellsPresent(towers, carriers);
    TotalsWithoutNulls(Corrected(Cleaned(towers, carriers)), col);
  }

  lemma CorrectedCellsPresent(towers: seq<TowerRow>, carriers: Carriers)
    ensures forall r :: r in Corrected(Cleaned(towers, carriers)) ==> r.operator.Some? && r.circle.Some?
  {
    CleanedRowsSpec(towers, carriers);
    CorrectedRows(Cleaned(towers, carriers));
  }

  lemma TotalsWithoutNulls(c: seq<Row>, col: Column)
    requires forall r :: r in c ==> r.operator.Some? && r.circle.Some?
    ensures Total(ValueCountsDf(c, col)) == |c|
    ensures Total(GroupCount(c)) == |Filter(c, (r: Row) => r.cid.Some?)|
  {
    ValueCountsSpec(c, col);
    FilterAll(c, (r: Row) => Cell(r, col).Some?);
    GroupCountSpec(c);
    FilterSameMask(c, (r: Row) => GroupKey(r).Some? && r.cid.Some?, (r: Row) => r.cid.Some?);
  }

  /** The group count of a `circle_dict` entry (the chart of one circle) and
      the group count of `df_corrected` (the chart of one operator) agree on
      every key of that circle: the same keys, the same counts. */
  lemma CircleCountsMatchCorrected(rows: seq<Row>, i: nat, k: (string, string, string))
    requires i < |CircleTrims| && k.1 == CircleTrims[i].circle
    ensures CircleTrims[i].caption in CircleDict(rows)
    ensures var d := GroupCount(CircleDict(rows)[CircleTrims[i].caption]);
      var c := GroupCount(Corrected(rows));
      (HasKey(d, k) <==> HasKey(c, k)) && Count(d, k) == Count(c, k)
  {
    CircleDictSpec(rows);
    CorrectedSelectsTrim(rows, i);
    SelectionCounts(Corrected(rows), CircleDict(rows)[CircleTrims[i].caption], CircleTrims[i].circle, k);
  }

  /** Group counts on a circle's selection agree with those on the whole
      table for the keys of that circle. */
  lemma SelectionCounts(all: seq<Row>, part: seq<Row>, circle: string, k: (string, string, string))
    requires part == Filter(all, r => InCircle(r, circle)) && k.1 == circle
    ensures (HasKey(GroupCount(part), k) <==> HasKey(GroupCount(all), k))
    ensures Count(GroupCount(part), k) == Count(GroupCount(all), k)
  {
    HitsOfSelection(all, r => InCircle(r, circle), GroupKey, (r: Row) => r.cid.Some?, k);
  }
}
