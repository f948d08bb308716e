/** The end of `data_cleaning`: twenty per-circle trims of the cleaned table,
    their concatenation `df_corrected`, and `circle_dict`, which files each
    trim under a display label. */
module Pipeline {
  import opened Frames
  import opened Towers
  import opened Cleaning
  import opened Trimming
  import opened Quantiles
  import opened Substitution

  /** One `get_rows_within_quantile` call: the circle it selects, the
      `circle_dict` label its result is filed under, and its two bounds. */
  datatype CircleTrim = CircleTrim(circle: string, caption: string, lower: Probability, upper: Probability)

  /** The twenty calls, in the order of the concatenation. */
  const CircleTrims: seq<CircleTrim> := [
    CircleTrim("Karnataka", "Karnataka", 0.01, 0.99),
    CircleTrim("Andhra Pradesh and Telangana", "Andhra Pradesh Telangana", 0.01, 0.95),
    CircleTrim("Tamil Nadu", "Tamil Nadu", 0.01, 0.99),
    CircleTrim("Maharashtra & Goa", "Maharashtra Goa", 0.01, 0.99),
    CircleTrim("Delhi & NCR", "Delhi NCR", 0.01, 0.99),
    CircleTrim("Mumbai", "Mumbai", 0.01, 0.99),
    CircleTrim("Kerala", "Kerala", 0.01, 0.99),
    CircleTrim("Gujarat", "Gujarat", 0.01, 0.99),
    CircleTrim("West Bengal", "West Bengal", 0.01, 0.99),
    CircleTrim("Madhya Pradesh & Chhattisgarh", "MP & CG", 0.01, 0.99),
    CircleTrim("Rajasthan", "Rajasthan", 0.01, 0.99),
    CircleTrim("Uttar Pradesh (W) & Uttarakhand", "Up West & Uttarakhand", 0.01, 0.99),
    CircleTrim("Uttar Pradesh (E)", "Up East", 0.01, 0.99),
    CircleTrim("Punjab", "Punjab", 0.01, 0.99),
    CircleTrim("Bihar & Jharkhand", "Bihar & Jharkhand", 0.01, 0.99),
    CircleTrim("Haryana", "Haryana", 0.01, 0.99),
    CircleTrim("Orissa", "Orissa", 0.01, 0.99),
    CircleTrim("Himachal Pradesh", "Himachal Pradesh", 0.01, 0.99),
    CircleTrim("Assam & North East", "Assam & NorthEast", 0.05, 0.99),
    CircleTrim("Jammu & Kashmir", "Jammu Kashmir", 0.01, 0.99)]

  lemma CircleTrimsValid()
    ensures |CircleTrims| == 20
    ensures forall i :: 0 <= i < |CircleTrims| ==> CircleTrims[i].lower <= CircleTrims[i].upper
  {
  }

  /** Every circle is trimmed to its 1% .. 99% band, except Andhra Pradesh and
      Telangana (1% .. 95%) and Assam & North East (5% .. 99%). */
  lemma TrimBoundsAsListed()
    ensures forall i :: 0 <= i < |CircleTrims| ==>
      CircleTrims[i].lower == (if CircleTrims[i].circle == "Assam & North East" then 0.05 else 0.01)
      && CircleTrims[i].upper == (if CircleTrims[i].circle == "Andhra Pradesh and Telangana" then 0.95 else 0.99)
  {
  }

  lemma DelhiTrim()
    ensures |CircleTrims| > 4 && CircleTrims[4] == CircleTrim("Delhi & NCR", "Delhi NCR", 0.01, 0.99)
  {
  }

  lemma CircleNamesDistinct()
    ensures forall i, j :: 0 <= i < j < |CircleTrims| ==> CircleTrims[i].circle != CircleTrims[j].circle
  {
  }

  lemma NoCaptionIsAndhraCircleName()
    ensures forall i :: 0 <= i < |CircleTrims| ==> CircleTrims[i].caption != "Andhra Pradesh and Telangana"
  {
  }

  lemma LabelsDistinct()
    ensures forall i, j :: 0 <= i < j < |CircleTrims| ==> CircleTrims[i].caption != CircleTrims[j].caption
  {
  }

  /** One `get_rows_within_quantile` call on the cleaned table. */
  function Trim(rows: seq<Row>, s: CircleTrim): seq<Row>
  {
    RowsWithinQuantile(rows, s.lower, s.upper, s.circle)
  }

  function TrimAll(rows: seq<Row>, specs: seq<CircleTrim>): (trims: seq<seq<Row>>)
    ensures |trims| == |specs|
    ensures forall i :: 0 <= i < |specs| ==> trims[i] == Trim(rows, specs[i])
  {
    if specs == [] then [] else [Trim(rows, specs[0])] + TrimAll(rows, specs[1..])
  }

  /** `df_corrected`: the twenty trims concatenated in their listed order. */
  function Corrected(rows: seq<Row>): seq<Row>
  {
    Flatten(TrimAll(rows, CircleTrims))
  }

  /** A dict display: each caption bound to its trim; a later entry would
      overwrite an earlier one with the same caption. */
  function CaptionMap(specs: seq<CircleTrim>, trims: seq<seq<Row>>): map<string, seq<Row>>
    requires |specs| == |trims|
  {
    if specs == [] then map[]
    else CaptionMap(specs[..|specs| - 1], trims[..|trims| - 1])[specs[|specs| - 1].caption := trims[|trims| - 1]]
  }

  /** `circle_dict`. */
  function CircleDict(rows: seq<Row>): map<string, seq<Row>>
  {
    CaptionMap(CircleTrims, TrimAll(rows, CircleTrims))
  }

  // ---------------------------------------------------------------------
  // Properties

  /** Every row of a trim belongs to the trimmed circle. */
  lemma TrimInCircle(rows: seq<Row>, s: CircleTrim)
    ensures forall r :: r in Trim(rows, s) ==> r in rows && r.circle == Some(s.circle)
  {
    TrimSpec(rows, s.lower, s.upper, s.circle);
  }

  /** Tables that each hold rows of one circle, the circles distinct. */
  predicate CircleBlocks(tables: seq<seq<Row>>, circles: seq<string>)
  {
    && |tables| == |circles|
    && (forall j :: 0 <= j < |tables| ==> forall r :: r in tables[j] ==> r.circle == Some(circles[j]))
    && (forall j, k :: 0 <= j < k < |circles| ==> circles[j] != circles[k])
  }

  lemma BlocksTail(tables: seq<seq<Row>>, circles: seq<string>)
    requires CircleBlocks(tables, circles) && tables != []
    ensures CircleBlocks(tables[1..], circles[1..])
  {
    assert forall j :: 0 <= j < |tables| - 1 ==> tables[1..][j] == tables[j + 1] && circles[1..][j] == circles[j + 1];
  }

  lemma {:induction false} SelectAbsent(tables: seq<seq<Row>>, circles: seq<string>, c: string)
    requires CircleBlocks(tables, circles)
    requires c !in circles
    ensures Filter(Flatten(tables), r => InCircle(r, c)) == []
  {
    if tables != [] {
      FilterConcat(tables[0], Flatten(tables[1..]), r => InCircle(r, c));
      FilterNone(tables[0], r => InCircle(r, c));
      BlocksTail(tables, circles);
      SelectAbsent(tables[1..], circles[1..], c);
    }
  }

  /** Selecting circle `circles[i]` from the concatenation gives back block
      `i`, in its order. */
  lemma {:induction false} SelectPresent(tables: seq<seq<Row>>, circles: seq<string>, i: nat)
    requires CircleBlocks(tables, circles) && i < |tables|
    ensures Filter(Flatten(tables), r => InCircle(r, circles[i])) == tables[i]
  {
    var c := circles[i];
    FilterConcat(tables[0], Flatten(tables[1..]), r => InCircle(r, c));
    BlocksTail(tables, circles);
    if i == 0 {
      FilterAll(tables[0], r => InCircle(r, c));
      assert c !in circles[1..];
      SelectAbsent(tables[1..], circles[1..], c);
      assert tables[0] + [] == tables[0];
    } else {
      FilterNone(tables[0], r => InCircle(r, c));
      SelectPresent(tables[1..], circles[1..], i - 1);
      assert [] + tables[i] == tables[i];
    }
  }

  function CircleNames(specs: seq<CircleTrim>): (names: seq<string>)
    ensures |names| == |specs|
    ensures forall i :: 0 <= i < |specs| ==> names[i] == specs[i].circle
  {
    MapRows(specs, (s: CircleTrim) => s.circle)
  }

  predicate DistinctCircles(specs: seq<CircleTrim>)
  {
    forall i, j :: 0 <= i < j < |specs| ==> specs[i].circle != specs[j].circle
  }

  predicate DistinctCaptions(specs: seq<CircleTrim>)
  {
    forall i, j :: 0 <= i < j < |specs| ==> specs[i].caption != specs[j].caption
  }

  /** Trims of distinct circles are blocks of those circles. */
  lemma TrimsAreBlocks(rows: seq<Row>, specs: seq<CircleTrim>)
    requires DistinctCircles(specs)
    ensures CircleBlocks(TrimAll(rows, specs), CircleNames(specs))
  {
    forall j | 0 <= j < |specs| ensures forall r :: r in Trim(rows, specs[j]) ==> r.circle == Some(specs[j].circle) {
      TrimInCircle(rows, specs[j]);
    }
  }

  /** Selecting one of the twenty circles from `df_corrected` gives back that
      circle's trim, rows in the same order. */
  lemma CorrectedSelectsTrim(rows: seq<Row>, i: nat)
    requires i < |CircleTrims|
    ensures Filter(Corrected(rows), r => InCircle(r, CircleTrims[i].circle)) == Trim(rows, CircleTrims[i])
  {
    CircleNamesDistinct();
    SelectTrim(rows, CircleTrims, i);
  }

  lemma SelectTrim(rows: seq<Row>, specs: seq<CircleTrim>, i: nat)
    requires DistinctCircles(specs) && i < |specs|
    ensures Filter(Flatten(TrimAll(rows, specs)), r => InCircle(r, specs[i].circle)) == Trim(rows, specs[i])
  {
    TrimsAreBlocks(rows, specs);
    SelectPresent(TrimAll(rows, specs), CircleNames(specs), i);
  }

  lemma SelectNoTrim(rows: seq<Row>, specs: seq<CircleTrim>, c: string)
    requires DistinctCircles(specs) && forall i :: 0 <= i < |specs| ==> specs[i].circle != c
    ensures Filter(Flatten(TrimAll(rows, specs)), r => InCircle(r, c)) == []
  {
    TrimsAreBlocks(rows, specs);
    SelectAbsent(TrimAll(rows, specs), CircleNames(specs), c);
  }

  /** Selecting any other circle from `df_corrected` gives nothing. */
  lemma CorrectedDropsOtherCircles(rows: seq<Row>, c: string)
    requires forall i :: 0 <= i < |CircleTrims| ==> CircleTrims[i].circle != c
    ensures Filter(Corrected(rows), r => InCircle(r, c)) == []
  {
    CircleNamesDistinct();
    SelectNoTrim(rows, CircleTrims, c);
  }

  /** Every row of `df_corrected` is a cleaned row of one of the twenty
      circles; a row of any other circle, or with a null circle, is dropped. */
  lemma CorrectedRows(rows: seq<Row>)
    ensures forall r :: r in Corrected(rows) ==>
      r in rows && exists i :: 0 <= i < |CircleTrims| && r.circle == Some(CircleTrims[i].circle)
  {
    CircleTrimsValid();
    var trims := TrimAll(rows, CircleTrims);
    forall r | r in Corrected(rows)
      ensures r in rows && exists i :: 0 <= i < |CircleTrims| && r.circle == Some(CircleTrims[i].circle)
    {
      var i :| 0 <= i < |trims| && r in trims[i];
      TrimInCircle(rows, CircleTrims[i]);
    }
  }

  /** A cleaned table whose rows all belong to one listed circle keeps in
      `df_corrected` exactly what that circle's trim keeps; when the trim is
      empty, so is `df_corrected`. */
  lemma CorrectedOfOneCircle(rows: seq<Row>, i: nat)
    requires i < |CircleTrims|
    requires forall r :: r in rows ==> r.circle == Some(CircleTrims[i].circle)
    requires Trim(rows, CircleTrims[i]) == []
    ensures Corrected(rows) == []
  {
    CorrectedRows(rows);
    CorrectedSelectsTrim(rows, i);
    FilterAll(Corrected(rows), r => InCircle(r, CircleTrims[i].circle));
  }

  /** The two Jio rows of Delhi that the cleaning turns into 4G rows of
      "Delhi & NCR" do not reach `df_corrected` when their latitudes differ:
      with two rows the 1% .. 99% latitude band lies strictly between them. */
  lemma JioDelhiPairTrimmedAway(t1: TowerRow, t2: TowerRow, carriers: Carriers)
    requires t1.radio == "GSM" && t2.radio == "GSM"
    requires t1.changeable0 == 0 && t2.changeable0 == 0
    requires (t1.mcc, t1.mnc) in carriers && (t2.mcc, t2.mnc) in carriers
    requires carriers[(t1.mcc, t1.mnc)].operator in {Some("Jio"), Some("Reliance (Used for Jio in some area)")}
    requires carriers[(t2.mcc, t2.mnc)].operator in {Some("Jio"), Some("Reliance (Used for Jio in some area)")}
    requires carriers[(t1.mcc, t1.mnc)].circle == Some("Delhi")
    requires carriers[(t2.mcc, t2.mnc)].circle == Some("Delhi")
    requires t1.lat != t2.lat
    ensures Corrected(Cleaned([t1, t2], carriers)) == []
  {
    var rows := Cleaned([t1, t2], carriers);
    JioDelhiScenario(t1, t2, carriers);
    assert rows[0].lat == t1.lat && rows[1].lat == t2.lat;
    DelhiPairTrimmedAway(rows);
  }

  /** Two rows of "Delhi & NCR" at different latitudes leave nothing in
      `df_corrected`. */
  lemma DelhiPairTrimmedAway(rows: seq<Row>)
    requires |rows| == 2 && rows[0].lat != rows[1].lat
    requires rows[0].circle == Some("Delhi & NCR") && rows[1].circle == Some("Delhi & NCR")
    ensures Corrected(rows) == []
  {
    DelhiTrim();
    TwoRowsTrimmedAway(rows, 4);
  }

  /** A cleaned table of two rows of one listed circle, at different
      latitudes, leaves nothing in `df_corrected`. */
  lemma TwoRowsTrimmedAway(rows: seq<Row>, i: nat)
    requires i < |CircleTrims| && |rows| == 2 && rows[0].lat != rows[1].lat
    requires rows[0].circle == Some(CircleTrims[i].circle) && rows[1].circle == Some(CircleTrims[i].circle)
    requires 0.0 < CircleTrims[i].lower < 1.0 && 0.0 < CircleTrims[i].upper < 1.0
    ensures Corrected(rows) == []
  {
    var s := CircleTrims[i];
    TwoRowTrimEmpty(rows[0], rows[1], s.lower, s.upper, s.circle);
    assert rows == [rows[0], rows[1]];
    CorrectedOfOneCircle(rows, i);
  }

  /** The keys of a dict display are its captions, one key per entry when
      the captions are distinct. */
  lemma {:induction false} CaptionMapKeys(specs: seq<CircleTrim>, trims: seq<seq<Row>>)
    requires |specs| == |trims|
    requires forall i, j :: 0 <= i < j < |specs| ==> specs[i].caption != specs[j].caption
    ensures forall k :: k in CaptionMap(specs, trims) <==> exists i :: 0 <= i < |specs| && specs[i].caption == k
    ensures |CaptionMap(specs, trims).Keys| == |specs|
  {
    if specs != [] {
      var n := |specs| - 1;
      var front, frontTrims := specs[..n], trims[..n];
      CaptionMapKeys(front, frontTrims);
      var m := CaptionMap(front, frontTrims);
      assert specs[n].caption !in m by {
        forall i | 0 <= i < n ensures front[i].caption != specs[n].caption {
          assert front[i] == specs[i];
        }
      }
      assert CaptionMap(specs, trims).Keys == m.Keys + {specs[n].caption};
      forall k ensures k in CaptionMap(specs, trims) <==> exists i :: 0 <= i < |specs| && specs[i].caption == k {
        if exists i :: 0 <= i < |specs| && specs[i].caption == k {
          var i :| 0 <= i < |specs| && specs[i].caption == k;
          if i < n {
            assert front[i] == specs[i];
          }
        }
        if k in m {
          var i :| 0 <= i < n && front[i].caption == k;
          assert specs[i] == front[i];
        }
      }
    }
  }

  /** With distinct captions each caption is bound to its own trim. */
  lemma {:induction false} CaptionMapValues(specs: seq<CircleTrim>, trims: seq<seq<Row>>)
    requires |specs| == |trims|
    requires forall i, j :: 0 <= i < j < |specs| ==> specs[i].caption != specs[j].caption
    ensures forall i :: 0 <= i < |specs| ==>
      specs[i].caption in CaptionMap(specs, trims) && CaptionMap(specs, trims)[specs[i].caption] == trims[i]
  {
    if specs != [] {
      var n := |specs| - 1;
      var front, frontTrims := specs[..n], trims[..n];
      CaptionMapValues(front, frontTrims);
      var m := CaptionMap(front, frontTrims);
      var full := CaptionMap(specs, trims);
      assert full == m[specs[n].caption := trims[n]];
      forall i | 0 <= i < n
        ensures specs[i].caption in full && full[specs[i].caption] == trims[i]
      {
        assert front[i] == specs[i] && frontTrims[i] == trims[i];
        assert specs[i].caption != specs[n].caption;
        assert m[front[i].caption] == frontTrims[i];
      }
    }
  }

  /** `circle_dict` has exactly twenty keys, the display captions, each bound
      to its circle's trim; the captions are not the circle names. */
  lemma CircleDictSpec(rows: seq<Row>)
    ensures |CircleDict(rows).Keys| == 20
    ensures forall k :: k in CircleDict(rows) <==> exists i :: 0 <= i < |CircleTrims| && CircleTrims[i].caption == k
    ensures forall i :: 0 <= i < |CircleTrims| ==>
      CircleDict(rows)[CircleTrims[i].caption] == Trim(rows, CircleTrims[i])
  {
    CircleTrimsValid();
    LabelsDistinct();
    DictOfTrims(rows, CircleTrims);
  }

  lemma DictOfTrims(rows: seq<Row>, specs: seq<CircleTrim>)
    requires DistinctCaptions(specs)
    ensures |CaptionMap(specs, TrimAll(rows, specs)).Keys| == |specs|
    ensures forall k :: k in CaptionMap(specs, TrimAll(rows, specs)) <==> exists i :: 0 <= i < |specs| && specs[i].caption == k
    ensures forall i :: 0 <= i < |specs| ==>
      CaptionMap(specs, TrimAll(rows, specs))[specs[i].caption] == Trim(rows, specs[i])
  {
    CaptionMapKeys(specs, TrimAll(rows, specs));
    CaptionMapValues(specs, TrimAll(rows, specs));
  }

  /** The trim of circle "Andhra Pradesh and Telangana" is filed under
      "Andhra Pradesh Telangana"; the circle's own name is not a key. */
  lemma CircleDictUsesCaptions(rows: seq<Row>)
    ensures "Andhra Pradesh Telangana" in CircleDict(rows)
    ensures CircleDict(rows)["Andhra Pradesh Telangana"] == RowsWithinQuantile(rows, 0.01, 0.95, "Andhra Pradesh and Telangana")
    ensures "Andhra Pradesh and Telangana" !in CircleDict(rows)
  {
    LabelsDistinct();
    CaptionMapKeys(CircleTrims, TrimAll(rows, CircleTrims));
    CaptionMapValues(CircleTrims, TrimAll(rows, CircleTrims));
    assert CircleTrims[1].caption == "Andhra Pradesh Telangana";
    NoCaptionIsAndhraCircleName();
  }

  /** Every entry of `circle_dict` holds rows of a single circle, and the
      entries together hold exactly the rows of `df_corrected`. */
  lemma CircleDictPartitionsCorrected(rows: seq<Row>)
    ensures forall i :: 0 <= i < |CircleTrims| ==>
      CircleTrims[i].caption in CircleDict(rows)
      && forall r :: r in CircleDict(rows)[CircleTrims[i].caption] ==> r.circle == Some(CircleTrims[i].circle)
    ensures forall r :: r in Corrected(rows) <==>
      exists i :: 0 <= i < |CircleTrims| && r in CircleDict(rows)[CircleTrims[i].caption]
  {
    var trims := TrimAll(rows, CircleTrims);
    LabelsDistinct();
    CaptionMapValues(CircleTrims, trims);
    forall i | 0 <= i < |CircleTrims|
      ensures forall r: Row :: r in trims[i] ==> r.circle == Some(CircleTrims[i].circle)
    {
      TrimInCircle(rows, CircleTrims[i]);
    }
  }

  /** Calling `data_cleaning` a second time on the caller's table, whose radio
      column the first call overwrote, returns the same `df_corrected` and the
      same `circle_dict`. */
  lemma SecondRunSameOutputs(towers: seq<TowerRow>, carriers: Carriers)
    ensures Corrected(Cleaned(RemapRadio(towers), carriers)) == Corrected(Cleaned(towers, carriers))
    ensures CircleDict(Cleaned(RemapRadio(towers), carriers)) == CircleDict(Cleaned(towers, carriers))
  {
    RerunOnRemappedTable(towers, carriers);
  }

  // ---------------------------------------------------------------------
  // `data_cleaning` itself, step by step

  /** The caller's tower table. `data_cleaning` overwrites its radio column in
      place, so the caller sees no technology name afterwards. */
  class TowerFrame {
    var rows: seq<TowerRow>

    constructor(rows: seq<TowerRow>)
      ensures this.rows == rows
    {
      this.rows := rows;
    }

    /** `df['radio'] = df['radio'].replace(...)`. */
    method RemapRadioColumn()
      modifies this
      ensures rows == RemapRadio(old(rows))
      ensures |rows| == |old(rows)|
      ensures forall i :: 0 <= i < |rows| ==> !IsSource(RadioPairs, rows[i].radio)
    {
      RemapRadioSpec(rows);
      rows := RemapRadio(rows);
    }
  }

  /** `data_cleaning(df, df_data_mcc_mnc)`: remaps the caller's radio column,
      then rebuilds `df_merged` one statement at a time and returns
      `df_corrected` and `circle_dict`. Every returned row has a canonical,
      active operator, a radio that is not one of the five technology names,
      and one of the twenty circles. */
  method DataCleaning(df: TowerFrame, carriers: Carriers) returns (corrected: seq<Row>, circleDict: map<string, seq<Row>>)
    modifies df
    ensures df.rows == RemapRadio(old(df.rows))
    ensures corrected == Corrected(Cleaned(old(df.rows), carriers))
    ensures circleDict == CircleDict(Cleaned(old(df.rows), carriers))
    ensures forall r :: r in corrected ==>
      r.operator.Some? && r.operator.value !in DefunctOperators
      && !IsSource(OperatorPairs, r.operator.value) && !IsSource(RadioPairs, r.radio)
      && exists i :: 0 <= i < |CircleTrims| && r.circle == Some(CircleTrims[i].circle)
  {
    ghost var towers := df.rows;
    df.RemapRadioColumn();
    var joined := Join(df.rows, carriers);
    joined := KeepChangeableZeroClear(joined);
    var merged := DropColumns(joined);
    merged := DropNullOperators(merged);
    merged := MergeOperatorNames(merged);
    ghost var named := merged;
    merged := DropOperator(merged, "AIRCEL (Not in Use)");
    merged := DropOperator(merged, "Uninor");
    merged := DropOperator(merged, "DOLPHIN");
    merged := DropOperator(merged, "Videocon Datacom");
    merged := DropOperator(merged, "Loop Mobile (Not in Use)");
    assert merged == DropOperators(named, DefunctOperators) by {
      FiveDrops(named);
    }
    merged := CorrectJio(merged, "2G");
    merged := CorrectJio(merged, "3G");
    merged := MergeCircleNames(merged);
    assert merged == Cleaned(towers, carriers);
    corrected := Corrected(merged);
    circleDict := CircleDict(merged);
    CleanedRowsSpec(towers, carriers);
    CorrectedRows(merged);
  }

  /** The five exclusion statements are the exclusion of the listed names. */
  lemma FiveDrops(rows: seq<Row>)
    ensures DropOperators(rows, DefunctOperators) ==
      DropOperator(DropOperator(DropOperator(DropOperator(DropOperator(rows,
        "AIRCEL (Not in Use)"), "Uninor"), "DOLPHIN"), "Videocon Datacom"), "Loop Mobile (Not in Use)")
  {
    var d := DefunctOperators;
    assert d[1..][1..][1..][1..][1..] == [];
  }
}
