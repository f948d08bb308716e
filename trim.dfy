/** `get_rows_within_quantile`: the rows of one circle whose latitude, and
    then whose longitude, lies between two quantiles of that coordinate. */
module Trimming {
  import opened Frames
  import opened Towers
  import opened Quantiles

  function Lat(r: Row): real
  {
    r.lat
  }

  function Long(r: Row): real
  {
    r.long
  }

  predicate InCircle(r: Row, circle: string)
  {
    r.circle == Some(circle)
  }

  /** `df_merged[df_merged.circle == circle]`; a null circle matches nothing. */
  function CircleRows(rows: seq<Row>, circle: string): seq<Row>
  {
    Filter(rows, r => InCircle(r, circle))
  }

  predicate Within(x: real, lo: real, hi: real)
  {
    lo <= x <= hi
  }

  /** The rows whose coordinate lies between its `lower` and `upper`
      quantiles, both taken over the coordinates of `rows` themselves. */
  function Band(rows: seq<Row>, coord: Row -> real, lower: Probability, upper: Probability): seq<Row>
  {
    var lo := Quantile(MapRows(rows, coord), lower);
    var hi := Quantile(MapRows(rows, coord), upper);
    Filter(rows, r => Within(coord(r), lo, hi))
  }

  /** The latitude pass runs on the circle's rows; the longitude pass runs on
      the rows the latitude pass kept, so its quantiles are those rows'. */
  function RowsWithinQuantile(rows: seq<Row>, lower: Probability, upper: Probability, circle: string): seq<Row>
  {
    Band(Band(CircleRows(rows, circle), Lat, lower, upper), Long, lower, upper)
  }

  /** The trim is an order-preserving selection of the circle's rows, and a
      row is in it exactly when it belongs to the circle, its latitude lies
      in the latitude band of the circle's rows and its longitude lies in the
      longitude band of the rows that passed the latitude test. */
  lemma TrimSpec(rows: seq<Row>, lower: Probability, upper: Probability, circle: string)
    ensures var own := CircleRows(rows, circle);
      var latLo, latHi := Quantile(MapRows(own, Lat), lower), Quantile(MapRows(own, Lat), upper);
      var passed := Band(own, Lat, lower, upper);
      var longLo, longHi := Quantile(MapRows(passed, Long), lower), Quantile(MapRows(passed, Long), upper);
      var trim := RowsWithinQuantile(rows, lower, upper, circle);
      && IsSubsequence(trim, own)
      && IsSubsequence(trim, rows)
      && (forall r :: r in trim <==>
            r in rows && r.circle == Some(circle)
            && latLo <= r.lat <= latHi
            && longLo <= r.long <= longHi)
  {
    var own := CircleRows(rows, circle);
    var passed := Band(own, Lat, lower, upper);
    var trim := RowsWithinQuantile(rows, lower, upper, circle);
    BandSpec(own, Lat, lower, upper);
    BandSpec(passed, Long, lower, upper);
    FilterIsSubsequence(rows, r => InCircle(r, circle));
    SubsequenceTransitive(trim, passed, own);
    SubsequenceTransitive(trim, own, rows);
  }

  lemma BandSpec(rows: seq<Row>, coord: Row -> real, lower: Probability, upper: Probability)
    ensures var xs := MapRows(rows, coord);
      var band := Band(rows, coord, lower, upper);
      && IsSubsequence(band, rows)
      && (forall r :: r in band <==> r in rows && Quantile(xs, lower) <= coord(r) <= Quantile(xs, upper))
  {
    var lo := Quantile(MapRows(rows, coord), lower);
    var hi := Quantile(MapRows(rows, coord), upper);
    FilterIsSubsequence(rows, r => Within(coord(r), lo, hi));
  }

  /** With lower <= upper each band is a genuine interval that lies within
      the range of the coordinates it was computed from. */
  lemma TrimBands(rows: seq<Row>, lower: Probability, upper: Probability, circle: string)
    requires lower <= upper
    ensures var own := CircleRows(rows, circle);
      var lats := MapRows(own, Lat);
      var longs := MapRows(Band(own, Lat, lower, upper), Long);
      && Quantile(lats, lower) <= Quantile(lats, upper)
      && Quantile(longs, lower) <= Quantile(longs, upper)
      && (lats != [] ==> Min(lats) <= Quantile(lats, lower) && Quantile(lats, upper) <= Max(lats))
      && (longs != [] ==> Min(longs) <= Quantile(longs, lower) && Quantile(longs, upper) <= Max(longs))
  {
    var own := CircleRows(rows, circle);
    QuantileMonotone(MapRows(own, Lat), lower, upper);
    QuantileMonotone(MapRows(Band(own, Lat, lower, upper), Long), lower, upper);
  }

  /** The band from the 0- to the 1-quantile keeps every row: the trim is
      then just the circle's rows. */
  lemma FullBandKeepsCircle(rows: seq<Row>, circle: string)
    ensures RowsWithinQuantile(rows, 0.0, 1.0, circle) == CircleRows(rows, circle)
  {
    var own := CircleRows(rows, circle);
    FullBandKeepsAll(own, Lat);
    FullBandKeepsAll(own, Long);
  }

  lemma FullBandKeepsAll(rows: seq<Row>, coord: Row -> real)
    ensures Band(rows, coord, 0.0, 1.0) == rows
  {
    var xs := MapRows(rows, coord);
    if rows != [] {
      QuantileEndpoints(xs);
      forall r | r in rows ensures Within(coord(r), Quantile(xs, 0.0), Quantile(xs, 1.0)) {
        var i :| 0 <= i < |rows| && rows[i] == r;
        assert coord(r) in xs by { assert xs[i] == coord(r); }
      }
    }
    FilterAll(rows, r => Within(coord(r), Quantile(xs, 0.0), Quantile(xs, 1.0)));
  }

  /** The trim of a circle depends only on that circle's rows. */
  lemma TrimOfCircleRows(rows: seq<Row>, lower: Probability, upper: Probability, circle: string)
    ensures RowsWithinQuantile(CircleRows(rows, circle), lower, upper, circle)
      == RowsWithinQuantile(rows, lower, upper, circle)
  {
    var own := CircleRows(rows, circle);
    FilterAll(own, r => InCircle(r, circle));
  }

  /** Two rows whose coordinates differ both fall outside any band strictly
      inside 0 .. 1: the lower bound lies above the smaller coordinate and the
      upper bound below the larger one. */
  lemma TwoRowBandEmpty(r1: Row, r2: Row, coord: Row -> real, lower: Probability, upper: Probability)
    requires 0.0 < lower < 1.0 && 0.0 < upper < 1.0 && coord(r1) != coord(r2)
    ensures Band([r1, r2], coord, lower, upper) == []
  {
    var xs := MapRows([r1, r2], coord);
    assert xs == [coord(r1), coord(r2)];
    QuantileOfTwo(coord(r1), coord(r2), lower);
    QuantileOfTwo(coord(r1), coord(r2), upper);
    var lo, hi := Quantile(xs, lower), Quantile(xs, upper);
    assert !Within(coord(r1), lo, hi) && !Within(coord(r2), lo, hi);
    FilterNone([r1, r2], r => Within(coord(r), lo, hi));
  }

  /** A circle with just two rows at different latitudes is trimmed to
      nothing by any band strictly inside 0 .. 1. */
  lemma TwoRowTrimEmpty(r1: Row, r2: Row, lower: Probability, upper: Probability, circle: string)
    requires r1.circle == Some(circle) && r2.circle == Some(circle)
    requires 0.0 < lower < 1.0 && 0.0 < upper < 1.0 && r1.lat != r2.lat
    ensures RowsWithinQuantile([r1, r2], lower, upper, circle) == []
  {
    FilterAll([r1, r2], r => InCircle(r, circle));
    TwoRowBandEmpty(r1, r2, Lat, lower, upper);
    assert Band([], Long, lower, upper) == [];
  }
}
