/** The row-level part of `data_cleaning`: the radio remap, the join with the
    mapping table, the row filters and the value substitutions, each one a
    column-wise step over the whole table, applied in the source's order. */
module Cleaning {
  import opened Frames
  import opened Substitution
  import opened Towers

  // Step 1: radio technology names become generations.

  function RemapRadioRow(t: TowerRow): TowerRow
  {
    t.(radio := ReplaceAll(t.radio, RadioPairs))
  }

  function RemapRadio(towers: seq<TowerRow>): seq<TowerRow>
  {
    MapRows(towers, RemapRadioRow)
  }

  // Step 2: left join with the mapping table on (mcc, mnc).

  function JoinRow(t: TowerRow, carriers: Carriers): JoinedRow
  {
    var key := (t.mcc, t.mnc);
    if key in carriers then JoinedRow(t, carriers[key].operator, carriers[key].circle)
    else JoinedRow(t, None, None)
  }

  function Join(towers: seq<TowerRow>, carriers: Carriers): seq<JoinedRow>
  {
    MapRows(towers, t => JoinRow(t, carriers))
  }

  // Step 3: keep the rows whose `changeable_0` column holds 0, the literal
  // test of the source; what that column encodes is decided by the file.

  predicate ChangeableZeroClear(j: JoinedRow)
  {
    j.tower.changeable0 == 0
  }

  function KeepChangeableZeroClear(rows: seq<JoinedRow>): seq<JoinedRow>
  {
    Filter(rows, ChangeableZeroClear)
  }

  // Step 4: drop lac, range, sample, avgsignal and both changeable columns.

  function DropColumnsRow(j: JoinedRow): Row
  {
    Row(j.tower.radio, j.tower.mcc, j.tower.mnc, j.tower.cid, j.tower.long, j.tower.lat,
        j.tower.created, j.tower.updated, j.operator, j.circle)
  }

  function DropColumns(rows: seq<JoinedRow>): seq<Row>
  {
    MapRows(rows, DropColumnsRow)
  }

  // Step 5: drop the rows whose operator is null.

  predicate HasOperator(r: Row)
  {
    r.operator.Some?
  }

  function DropNullOperators(rows: seq<Row>): seq<Row>
  {
    Filter(rows, HasOperator)
  }

  // Step 6: merge spellings of one operator.

  /** `replace` on a nullable cell: a null stays null. */
  function ReplaceCell(cell: Option<string>, pairs: Pairs): Option<string>
  {
    if cell.Some? then Some(ReplaceAll(cell.value, pairs)) else None
  }

  function LookupCell(pairs: Pairs, cell: Option<string>): Option<string>
  {
    if cell.Some? then Some(Lookup(pairs, cell.value)) else None
  }

  function MergeOperatorRow(r: Row): Row
  {
    r.(operator := ReplaceCell(r.operator, OperatorPairs))
  }

  function MergeOperatorNames(rows: seq<Row>): seq<Row>
  {
    MapRows(rows, MergeOperatorRow)
  }

  // Step 7: drop the defunct operators, one filter per name.

  function DropOperator(rows: seq<Row>, name: string): seq<Row>
  {
    Filter(rows, (r: Row) => r.operator != Some(name))
  }

  function DropOperators(rows: seq<Row>, names: seq<string>): seq<Row>
    decreases |names|
  {
    if names == [] then rows else DropOperators(DropOperator(rows, names[0]), names[1..])
  }

  predicate OperatorNotIn(r: Row, names: seq<string>)
  {
    r.operator.None? || r.operator.value !in names
  }

  // Step 8: Jio runs no 2G or 3G network; such rows are relabelled 4G.

  function JioTo4G(r: Row, from: string): Row
  {
    if r.operator == Some("Jio") && r.radio == from then r.(radio := "4G") else r
  }

  function CorrectJio(rows: seq<Row>, from: string): seq<Row>
  {
    MapRows(rows, r => JioTo4G(r, from))
  }

  function CorrectJioRadio(rows: seq<Row>): seq<Row>
  {
    CorrectJio(CorrectJio(rows, "2G"), "3G")
  }

  // Step 9: merge regional labels into canonical circles.

  function MergeCircleRow(r: Row): Row
  {
    r.(circle := ReplaceCell(r.circle, CirclePairs))
  }

  function MergeCircleNames(rows: seq<Row>): seq<Row>
  {
    MapRows(rows, MergeCircleRow)
  }

  /** `df_merged` as it stands before the per-circle trim. */
  function Cleaned(towers: seq<TowerRow>, carriers: Carriers): seq<Row>
  {
    var joined := KeepChangeableZeroClear(Join(RemapRadio(towers), carriers));
    var named := DropNullOperators(DropColumns(joined));
    var active := DropOperators(MergeOperatorNames(named), DefunctOperators);
    MergeCircleNames(CorrectJioRadio(active))
  }

  /** What the steps above do to ONE tower row: it is dropped (None) or
      becomes one cleaned row. */
  function CleanRow(t: TowerRow, carriers: Carriers): Option<Row>
  {
    var j := JoinRow(RemapRadioRow(t), carriers);
    if !ChangeableZeroClear(j) then None
    else
      var d := DropColumnsRow(j);
      if !HasOperator(d) then None
      else
        var m := MergeOperatorRow(d);
        if !OperatorNotIn(m, DefunctOperators) then None
        else Some(MergeCircleRow(JioTo4G(JioTo4G(m, "2G"), "3G")))
  }

  // ---------------------------------------------------------------------
  // Properties of the individual steps

  /** UMTS and CDMA become 3G, GSM 2G, LTE 4G, NR 5G; any other value is kept. */
  lemma RadioGeneration(v: string)
    ensures ReplaceAll(v, RadioPairs) ==
      if v == "UMTS" || v == "CDMA" then "3G"
      else if v == "GSM" then "2G"
      else if v == "LTE" then "4G"
      else if v == "NR" then "5G"
      else v
  {
    RadioTableIsFinal();
    ChainIsLookup(RadioPairs, v);
  }

  /** After the remap no row carries a technology name, every other column is
      untouched, and remapping again changes nothing. */
  lemma RemapRadioSpec(towers: seq<TowerRow>)
    ensures |RemapRadio(towers)| == |towers|
    ensures forall i :: 0 <= i < |towers| ==>
      RemapRadio(towers)[i] == towers[i].(radio := Lookup(RadioPairs, towers[i].radio))
      && !IsSource(RadioPairs, RemapRadio(towers)[i].radio)
    ensures RemapRadio(RemapRadio(towers)) == RemapRadio(towers)
  {
    RadioTableIsFinal();
    forall i | 0 <= i < |towers|
      ensures RemapRadio(towers)[i] == towers[i].(radio := Lookup(RadioPairs, towers[i].radio))
      ensures !IsSource(RadioPairs, RemapRadio(towers)[i].radio)
      ensures RemapRadio(RemapRadio(towers))[i] == RemapRadio(towers)[i]
    {
      var v := towers[i].radio;
      ChainIsLookup(RadioPairs, v);
      ChainIsLookup(RadioPairs, Lookup(RadioPairs, v));
      LookupRemovesSources(RadioPairs, v);
      LookupIdempotent(RadioPairs, v);
    }
  }

  /** The five exclusion filters act as one filter against the whole list,
      and the rows they keep are the input's rows, unchanged and in order. */
  lemma {:induction false} DropOperatorsIsOneFilter(rows: seq<Row>, names: seq<string>)
    ensures DropOperators(rows, names) == Filter(rows, r => OperatorNotIn(r, names))
    ensures IsSubsequence(DropOperators(rows, names), rows)
    decreases |names|
  {
    if names == [] {
      FilterAll(rows, r => OperatorNotIn(r, names));
    } else {
      var n := names[0];
      var first := Filter(rows, (r: Row) => r.operator != Some(n));
      DropOperatorsIsOneFilter(first, names[1..]);
      FilterFilter(rows, (r: Row) => r.operator != Some(n), r => OperatorNotIn(r, names[1..]),
                   r => OperatorNotIn(r, names));
    }
    FilterIsSubsequence(rows, r => OperatorNotIn(r, names));
  }

  /** After the operator merge and the exclusions, no row names a merged
      spelling or a defunct operator; every row kept is an input row. */
  lemma OperatorStepsSpec(rows: seq<Row>)
    ensures forall r :: r in DropOperators(MergeOperatorNames(rows), DefunctOperators) ==>
      (r.operator.Some? ==> !IsSource(OperatorPairs, r.operator.value) && r.operator.value !in DefunctOperators)
    ensures IsSubsequence(DropOperators(MergeOperatorNames(rows), DefunctOperators), MergeOperatorNames(rows))
  {
    var merged := MergeOperatorNames(rows);
    DropOperatorsIsOneFilter(merged, DefunctOperators);
    OperatorTableIsFinal();
    forall r | r in merged && r.operator.Some?
      ensures !IsSource(OperatorPairs, r.operator.value)
    {
      var i :| 0 <= i < |merged| && merged[i] == r;
      var v := rows[i].operator.value;
      ChainIsLookup(OperatorPairs, v);
      LookupRemovesSources(OperatorPairs, v);
    }
  }

  /** Jio rows tagged 2G or 3G become 4G; nothing else changes. */
  lemma CorrectJioRadioSpec(rows: seq<Row>)
    ensures |CorrectJioRadio(rows)| == |rows|
    ensures forall i :: 0 <= i < |rows| ==>
      CorrectJioRadio(rows)[i] ==
        if rows[i].operator == Some("Jio") && (rows[i].radio == "2G" || rows[i].radio == "3G")
        then rows[i].(radio := "4G") else rows[i]
  {
  }

  /** The circle merges act as one lookup, leave unknown labels and nulls
      alone, and applying them twice equals applying them once. */
  lemma MergeCircleNamesSpec(rows: seq<Row>)
    ensures |MergeCircleNames(rows)| == |rows|
    ensures forall i :: 0 <= i < |rows| ==>
      MergeCircleNames(rows)[i] == rows[i].(circle := LookupCell(CirclePairs, rows[i].circle))
    ensures MergeCircleNames(MergeCircleNames(rows)) == MergeCircleNames(rows)
  {
    CircleTableIsFinal();
    forall i | 0 <= i < |rows|
      ensures MergeCircleNames(rows)[i] == rows[i].(circle := LookupCell(CirclePairs, rows[i].circle))
      ensures MergeCircleNames(MergeCircleNames(rows))[i] == MergeCircleNames(rows)[i]
    {
      if rows[i].circle.Some? {
        var v := rows[i].circle.value;
        ChainIsLookup(CirclePairs, v);
        ChainIsLookup(CirclePairs, Lookup(CirclePairs, v));
        LookupIdempotent(CirclePairs, v);
      }
    }
  }

  // ---------------------------------------------------------------------
  // The column-wise pipeline equals the row-wise reference

  lemma CleanedConcat(a: seq<TowerRow>, b: seq<TowerRow>, carriers: Carriers)
    ensures Cleaned(a + b, carriers) == Cleaned(a, carriers) + Cleaned(b, carriers)
  {
    MapRowsConcat(a, b, RemapRadioRow);
    var ra, rb := RemapRadio(a), RemapRadio(b);
    MapRowsConcat(ra, rb, t => JoinRow(t, carriers));
    var ja, jb := Join(ra, carriers), Join(rb, carriers);
    FilterConcat(ja, jb, ChangeableZeroClear);
    var ka, kb := KeepChangeableZeroClear(ja), KeepChangeableZeroClear(jb);
    MapRowsConcat(ka, kb, DropColumnsRow);
    var da, db := DropColumns(ka), DropColumns(kb);
    FilterConcat(da, db, HasOperator);
    var na, nb := DropNullOperators(da), DropNullOperators(db);
    MapRowsConcat(na, nb, MergeOperatorRow);
    var ma, mb := MergeOperatorNames(na), MergeOperatorNames(nb);
    DropOperatorsIsOneFilter(ma + mb, DefunctOperators);
    DropOperatorsIsOneFilter(ma, DefunctOperators);
    DropOperatorsIsOneFilter(mb, DefunctOperators);
    FilterConcat(ma, mb, r => OperatorNotIn(r, DefunctOperators));
    var xa, xb := DropOperators(ma, DefunctOperators), DropOperators(mb, DefunctOperators);
    MapRowsConcat(xa, xb, r => JioTo4G(r, "2G"));
    var ga, gb := CorrectJio(xa, "2G"), CorrectJio(xb, "2G");
    MapRowsConcat(ga, gb, r => JioTo4G(r, "3G"));
    var ca, cb := CorrectJio(ga, "3G"), CorrectJio(gb, "3G");
    MapRowsConcat(ca, cb, MergeCircleRow);
  }

  lemma CleanedSingleton(t: TowerRow, carriers: Carriers)
    ensures Cleaned([t], carriers) == if CleanRow(t, carriers).Some? then [CleanRow(t, carriers).value] else []
  {
    var j := JoinRow(RemapRadioRow(t), carriers);
    assert Join(RemapRadio([t]), carriers) == [j];
    if ChangeableZeroClear(j) {
      assert KeepChangeableZeroClear([j]) == [j];
      var d := DropColumnsRow(j);
      assert DropColumns([j]) == [d];
      if HasOperator(d) {
        assert DropNullOperators([d]) == [d];
        var m := MergeOperatorRow(d);
        assert MergeOperatorNames([d]) == [m];
        DropOperatorsIsOneFilter([m], DefunctOperators);
        if OperatorNotIn(m, DefunctOperators) {
          assert DropOperators([m], DefunctOperators) == [m];
          var g := JioTo4G(JioTo4G(m, "2G"), "3G");
          assert CorrectJioRadio([m]) == [g];
          assert MergeCircleNames([g]) == [MergeCircleRow(g)];
        } else {
          assert DropOperators([m], DefunctOperators) == [];
        }
      } else {
        assert DropNullOperators([d]) == [];
      }
    } else {
      assert KeepChangeableZeroClear([j]) == [];
    }
  }

  /** The sequence of column-wise steps treats every row on its own and keeps
      the row order: it equals mapping each tower row through CleanRow and
      keeping the results. */
  lemma {:induction false} CleanedIsRowwise(towers: seq<TowerRow>, carriers: Carriers)
    ensures Cleaned(towers, carriers) == Collect(towers, t => CleanRow(t, carriers))
  {
    if towers != [] {
      assert towers == [towers[0]] + towers[1..];
      CleanedConcat([towers[0]], towers[1..], carriers);
      CleanedSingleton(towers[0], carriers);
      CleanedIsRowwise(towers[1..], carriers);
      CollectCons(towers, t => CleanRow(t, carriers));
    }
  }

  /** One tower row survives exactly when its `changeable_0` is 0, its
      (mcc, mnc) has a mapping entry with an operator, and that operator's
      canonical name is not defunct. */
  lemma CleanRowKeeps(t: TowerRow, carriers: Carriers)
    ensures var key := (t.mcc, t.mnc);
      CleanRow(t, carriers).Some? <==>
        t.changeable0 == 0 && key in carriers && carriers[key].operator.Some?
        && Lookup(OperatorPairs, carriers[key].operator.value) !in DefunctOperators
  {
    var key := (t.mcc, t.mnc);
    if key in carriers && carriers[key].operator.Some? {
      OperatorChain(carriers[key].operator.value);
    }
  }

  /** A surviving row, read off the tables as single lookups: it keeps its
      identity columns and coordinates, takes its radio through the radio
      table (4G for a Jio row that comes out 2G or 3G) and the canonical
      operator and circle names. */
  lemma CleanRowByLookup(t: TowerRow, carriers: Carriers)
    requires CleanRow(t, carriers).Some?
    ensures var key := (t.mcc, t.mnc);
      key in carriers && carriers[key].operator.Some? &&
      var operator := Lookup(OperatorPairs, carriers[key].operator.value);
      var generation := Lookup(RadioPairs, t.radio);
      CleanRow(t, carriers).value == Row(
        if operator == "Jio" && (generation == "2G" || generation == "3G") then "4G" else generation,
        t.mcc, t.mnc, t.cid, t.long, t.lat, t.created, t.updated,
        Some(operator), LookupCell(CirclePairs, carriers[key].circle))
  {
    var key := (t.mcc, t.mnc);
    var entry := carriers[key];
    RadioChain(t.radio);
    OperatorChain(entry.operator.value);
    if entry.circle.Some? {
      CircleChain(entry.circle.value);
    }
    var operator := Lookup(OperatorPairs, entry.operator.value);
    var generation := Lookup(RadioPairs, t.radio);
    var m := MergeOperatorRow(DropColumnsRow(JoinRow(RemapRadioRow(t), carriers)));
    assert m == Row(generation, t.mcc, t.mnc, t.cid, t.long, t.lat, t.created, t.updated,
                    Some(operator), entry.circle);
    var g := JioTo4G(JioTo4G(m, "2G"), "3G");
    assert g == m.(radio := if operator == "Jio" && (generation == "2G" || generation == "3G") then "4G" else generation);
  }

  /** Every row CleanRow keeps has a canonical, non-null, active operator, a
      radio that is not one of the five technology names, and a canonical
      circle, and a Jio row is never 2G or 3G. */
  lemma CleanRowCanonical(t: TowerRow, carriers: Carriers)
    requires CleanRow(t, carriers).Some?
    ensures var r := CleanRow(t, carriers).value;
      r.operator.Some? && r.operator.value !in DefunctOperators
      && !IsSource(OperatorPairs, r.operator.value)
      && !IsSource(RadioPairs, r.radio)
      && (r.operator == Some("Jio") ==> r.radio != "2G" && r.radio != "3G")
      && (r.circle.Some? ==> !IsSource(CirclePairs, r.circle.value))
  {
    var key := (t.mcc, t.mnc);
    CleanRowKeeps(t, carriers);
    CleanRowByLookup(t, carriers);
    OperatorCanonical(carriers[key].operator.value);
    RadioCanonical(t.radio);
    if carriers[key].circle.Some? {
      CircleCanonical(carriers[key].circle.value);
    }
  }

  // ---------------------------------------------------------------------
  // Properties of the cleaned table

  /** Every cleaned row comes from a tower row whose `changeable_0` is 0 and
      whose (mcc, mnc) has a mapping entry, and keeps that row's identity and
      coordinates; it has a canonical, non-null, active operator, a radio that
      is not one of the five technology names, a canonical circle, and a Jio
      row is never 2G or 3G. */
  lemma CleanedRowsSpec(towers: seq<TowerRow>, carriers: Carriers)
    ensures |Cleaned(towers, carriers)| <= |towers|
    ensures forall r :: r in Cleaned(towers, carriers) ==>
      exists t :: t in towers && t.changeable0 == 0 && (t.mcc, t.mnc) in carriers
        && r.mcc == t.mcc && r.mnc == t.mnc && r.cid == t.cid && r.lat == t.lat && r.long == t.long
    ensures forall r :: r in Cleaned(towers, carriers) ==>
      r.operator.Some? && r.operator.value !in DefunctOperators
      && !IsSource(OperatorPairs, r.operator.value)
      && !IsSource(RadioPairs, r.radio)
      && (r.operator == Some("Jio") ==> r.radio != "2G" && r.radio != "3G")
      && (r.circle.Some? ==> !IsSource(CirclePairs, r.circle.value))
  {
    CleanedIsRowwise(towers, carriers);
    forall r | r in Cleaned(towers, carriers)
      ensures exists t :: (t in towers && t.changeable0 == 0 && (t.mcc, t.mnc) in carriers
        && r.mcc == t.mcc && r.mnc == t.mnc && r.cid == t.cid && r.lat == t.lat && r.long == t.long)
      ensures r.operator.Some? && r.operator.value !in DefunctOperators
      ensures !IsSource(OperatorPairs, r.operator.value) && !IsSource(RadioPairs, r.radio)
      ensures r.operator == Some("Jio") ==> r.radio != "2G" && r.radio != "3G"
      ensures r.circle.Some? ==> !IsSource(CirclePairs, r.circle.value)
    {
      var t :| t in towers && CleanRow(t, carriers) == Some(r);
      CleanRowKeeps(t, carriers);
      CleanRowByLookup(t, carriers);
      CleanRowCanonical(t, carriers);
    }
  }

  /** Tower rows whose `changeable_0` is not 0 or whose (mcc, mnc) has no
      mapping entry never reach the output: deleting them from the input
      changes nothing. */
  lemma UnusableRowsNeverAppear(towers: seq<TowerRow>, carriers: Carriers)
    ensures Cleaned(towers, carriers)
      == Cleaned(Filter(towers, (t: TowerRow) => t.changeable0 == 0 && (t.mcc, t.mnc) in carriers), carriers)
  {
    CleanedIsRowwise(towers, carriers);
    CleanedIsRowwise(Filter(towers, (t: TowerRow) => t.changeable0 == 0 && (t.mcc, t.mnc) in carriers), carriers);
    forall t: TowerRow | !(t.changeable0 == 0 && (t.mcc, t.mnc) in carriers)
      ensures CleanRow(t, carriers).None?
    {
      CleanRowKeeps(t, carriers);
    }
    CollectAfterFilter(towers, (t: TowerRow) => t.changeable0 == 0 && (t.mcc, t.mnc) in carriers, t => CleanRow(t, carriers));
  }

  /** Read as the two indicator columns of one changeable value (exactly one
      of them is 1), the filter keeps exactly the rows whose `changeable_1`
      is 1, that is, the rows whose changeable value is 1. */
  lemma OneHotFilterKeepsChangeableOne(rows: seq<JoinedRow>)
    requires forall j :: j in rows ==>
      (j.tower.changeable0 == 0 && j.tower.changeable1 == 1) || (j.tower.changeable0 == 1 && j.tower.changeable1 == 0)
    ensures KeepChangeableZeroClear(rows) == Filter(rows, (j: JoinedRow) => j.tower.changeable1 == 1)
  {
    FilterSameMask(rows, ChangeableZeroClear, (j: JoinedRow) => j.tower.changeable1 == 1);
  }

  lemma CleanRowIgnoresRemap(t: TowerRow, carriers: Carriers)
    ensures CleanRow(RemapRadioRow(t), carriers) == CleanRow(t, carriers)
  {
    CleanRowKeeps(t, carriers);
    CleanRowKeeps(RemapRadioRow(t), carriers);
    if CleanRow(t, carriers).Some? {
      CleanRowByLookup(t, carriers);
      CleanRowByLookup(RemapRadioRow(t), carriers);
      RadioTableIsFinal();
      RadioChain(t.radio);
      LookupIdempotent(RadioPairs, t.radio);
    }
  }

  /** Running the cleaning again on the caller's table, whose radio column the
      first run overwrote, gives the same table. */
  lemma RerunOnRemappedTable(towers: seq<TowerRow>, carriers: Carriers)
    ensures Cleaned(RemapRadio(towers), carriers) == Cleaned(towers, carriers)
  {
    CleanedIsRowwise(towers, carriers);
    CleanedIsRowwise(RemapRadio(towers), carriers);
    forall t ensures CleanRow(RemapRadioRow(t), carriers) == CleanRow(t, carriers) {
      CleanRowIgnoresRemap(t, carriers);
    }
    CollectAfterMap(towers, RemapRadioRow, t => CleanRow(t, carriers), t => CleanRow(t, carriers));
  }

  /** With technology names and generations as the only radio values, every
      Jio row of the output is 4G or 5G. */
  lemma JioIsFourOrFiveG(towers: seq<TowerRow>, carriers: Carriers)
    requires forall t :: t in towers ==> KnownRadio(t.radio)
    ensures forall r :: r in Cleaned(towers, carriers) && r.operator == Some("Jio") ==>
      r.radio == "4G" || r.radio == "5G"
  {
    CleanedIsRowwise(towers, carriers);
    forall r | r in Cleaned(towers, carriers) && r.operator == Some("Jio")
      ensures r.radio == "4G" || r.radio == "5G"
    {
      var t :| t in towers && CleanRow(t, carriers) == Some(r);
      JioRowGeneration(t, carriers);
    }
  }

  lemma JioRowGeneration(t: TowerRow, carriers: Carriers)
    requires KnownRadio(t.radio)
    requires CleanRow(t, carriers).Some? && CleanRow(t, carriers).value.operator == Some("Jio")
    ensures CleanRow(t, carriers).value.radio in {"4G", "5G"}
  {
    CleanRowByLookup(t, carriers);
    KnownRadioGenerations(t.radio);
  }

  /** With technology names and generations as the only radio values, every
      row of the output carries a generation. */
  lemma CleanedRadiosAreGenerations(towers: seq<TowerRow>, carriers: Carriers)
    requires forall t :: t in towers ==> KnownRadio(t.radio)
    ensures forall r :: r in Cleaned(towers, carriers) ==> r.radio in {"2G", "3G", "4G", "5G"}
  {
    CleanedIsRowwise(towers, carriers);
    forall r | r in Cleaned(towers, carriers)
      ensures r.radio in {"2G", "3G", "4G", "5G"}
    {
      var t :| t in towers && CleanRow(t, carriers) == Some(r);
      CleanRowByLookup(t, carriers);
      KnownRadioGenerations(t.radio);
    }
  }

  /** The Jio correction only touches 2G and 3G: a Jio row, under either
      spelling, whose radio is a value the remap does not know, such as
      "WCDMA", keeps it, so a Jio row of the output is not 4G or 5G in
      general. */
  lemma JioUnknownRadioKept(t: TowerRow, carriers: Carriers)
    requires t.radio == "WCDMA" && t.changeable0 == 0 && (t.mcc, t.mnc) in carriers
    requires carriers[(t.mcc, t.mnc)].operator in {Some("Jio"), Some("Reliance (Used for Jio in some area)")}
    ensures Cleaned([t], carriers) == [CleanRow(t, carriers).value]
    ensures CleanRow(t, carriers).value.operator == Some("Jio") && CleanRow(t, carriers).value.radio == "WCDMA"
  {
    assert !IsSource(RadioPairs, "WCDMA");
    LookupMiss(RadioPairs, "WCDMA");
    JioSpellings();
    JioIsActive();
    CleanRowKeeps(t, carriers);
    CleanRowByLookup(t, carriers);
    CleanedSingleton(t, carriers);
  }

  /** A Jio row recorded as GSM whose mapping entry says "Delhi" comes out as
      a 4G row of circle "Delhi & NCR". The mapping entry may also carry
      Jio's older spelling. */
  lemma JioDelhiRow(t: TowerRow, carriers: Carriers)
    requires t.radio == "GSM" && t.changeable0 == 0 && (t.mcc, t.mnc) in carriers
    requires carriers[(t.mcc, t.mnc)].operator in {Some("Jio"), Some("Reliance (Used for Jio in some area)")}
    requires carriers[(t.mcc, t.mnc)].circle == Some("Delhi")
    ensures CleanRow(t, carriers) == Some(Row("4G", t.mcc, t.mnc, t.cid, t.long, t.lat, t.created, t.updated,
                                              Some("Jio"), Some("Delhi & NCR")))
  {
    GsmIsTwoG();
    JioSpellings();
    JioIsActive();
    DelhiIsDelhiNcr();
    CleanRowKeeps(t, carriers);
    CleanRowByLookup(t, carriers);
  }

  /** Two such rows in a table come out, in their order, in the cleaned table
      `df_merged`, before the per-circle trim; whether the trim keeps them is
      decided by their coordinates. */
  lemma JioDelhiScenario(t1: TowerRow, t2: TowerRow, carriers: Carriers)
    requires t1.radio == "GSM" && t2.radio == "GSM"
    requires t1.changeable0 == 0 && t2.changeable0 == 0
    requires (t1.mcc, t1.mnc) in carriers && (t2.mcc, t2.mnc) in carriers
    requires carriers[(t1.mcc, t1.mnc)].operator in {Some("Jio"), Some("Reliance (Used for Jio in some area)")}
    requires carriers[(t2.mcc, t2.mnc)].operator in {Some("Jio"), Some("Reliance (Used for Jio in some area)")}
    requires carriers[(t1.mcc, t1.mnc)].circle == Some("Delhi")
    requires carriers[(t2.mcc, t2.mnc)].circle == Some("Delhi")
    ensures Cleaned([t1, t2], carriers) ==
      [Row("4G", t1.mcc, t1.mnc, t1.cid, t1.long, t1.lat, t1.created, t1.updated, Some("Jio"), Some("Delhi & NCR")),
       Row("4G", t2.mcc, t2.mnc, t2.cid, t2.long, t2.lat, t2.created, t2.updated, Some("Jio"), Some("Delhi & NCR"))]
  {
    JioDelhiRow(t1, carriers);
    JioDelhiRow(t2, carriers);
    CleanedPair(t1, t2, carriers);
  }

  lemma CleanedPair(t1: TowerRow, t2: TowerRow, carriers: Carriers)
    requires CleanRow(t1, carriers).Some? && CleanRow(t2, carriers).Some?
    ensures Cleaned([t1, t2], carriers) == [CleanRow(t1, carriers).value, CleanRow(t2, carriers).value]
  {
    CleanedIsRowwise([t1, t2], carriers);
    CollectPair(t1, t2, t => CleanRow(t, carriers));
  }
}
