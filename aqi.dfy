/** The PM2.5 to AQI converter of lib/aqi.ts: a five-row breakpoint table, a
    first-match lookup that falls back to the last row, and linear
    interpolation rounded with `Math.round`.

    The table is the one the code holds, not the regulation's: the tiers carry
    the code's own labels and the top row merges 150.5-500.4 into one
    201-500 "hazardous" segment. */
module Aqi {
  import opened Common

  /** `AqiBand`, in increasing severity. */
  datatype Band = Good | Moderate | Unhealthy | VeryUnhealthy | Hazardous

  /** The string literal the code uses for each band. */
  function BandName(b: Band): string
  {
    match b
    case Good => "good"
    case Moderate => "moderate"
    case Unhealthy => "unhealthy"
    case VeryUnhealthy => "very-unhealthy"
    case Hazardous => "hazardous"
  }

  /** Reading a band back from its string; anything else is not a band. */
  function BandFromName(s: string): Option<Band>
  {
    if s == "good" then Some(Good)
    else if s == "moderate" then Some(Moderate)
    else if s == "unhealthy" then Some(Unhealthy)
    else if s == "very-unhealthy" then Some(VeryUnhealthy)
    else if s == "hazardous" then Some(Hazardous)
    else None
  }

  /** The position of a band in the order good < ... < hazardous. */
  function BandRank(b: Band): (k: nat)
    ensures k < 5
  {
    match b
    case Good => 0
    case Moderate => 1
    case Unhealthy => 2
    case VeryUnhealthy => 3
    case Hazardous => 4
  }

  /** Every band's name reads back as that band, so a converter result never
      carries an unrecognised band name. */
  lemma BandNameRoundTrip(b: Band)
    ensures BandFromName(BandName(b)) == Some(b)
  {
  }

  datatype Breakpoint = Breakpoint(cLow: real, cHigh: real, iLow: int, iHigh: int, band: Band)

  /** `pm25Breakpoints`. */
  const Pm25Breakpoints: seq<Breakpoint> := [
    Breakpoint(0.0, 12.0, 0, 50, Good),
    Breakpoint(12.1, 35.4, 51, 100, Moderate),
    Breakpoint(35.5, 55.4, 101, 150, Unhealthy),
    Breakpoint(55.5, 150.4, 151, 200, VeryUnhealthy),
    Breakpoint(150.5, 500.4, 201, 500, Hazardous)
  ]

  /** The result `{ value, band }` of `pm25ToAqi`. */
  datatype AqiResult = AqiResult(value: int, band: Band)

  /** The closed interval test of the `find` callback. */
  predicate Covers(b: Breakpoint, c: real)
  {
    c >= b.cLow && c <= b.cHigh
  }

  /** Every row is a proper interval with a proper index range, and the rows
      are ascending and pairwise disjoint. */
  predicate WellFormed(table: seq<Breakpoint>)
  {
    (forall i :: 0 <= i < |table| ==> table[i].cLow < table[i].cHigh && table[i].iLow < table[i].iHigh) &&
    (forall i, j :: 0 <= i < j < |table| ==> table[i].cHigh < table[j].cLow && table[i].iHigh < table[j].iLow)
  }

  /** The table has five rows, is well formed, and so no interpolation divides
      by zero and at most one row covers any concentration. */
  lemma TableWellFormed()
    ensures |Pm25Breakpoints| == 5 && WellFormed(Pm25Breakpoints)
    ensures forall c: real, i, j :: 0 <= i < 5 && 0 <= j < 5 && Covers(Pm25Breakpoints[i], c) && Covers(Pm25Breakpoints[j], c) ==> i == j
  {
  }

  /** `table.find(...)` from position k: the first covering row, if any. */
  function FindRow(table: seq<Breakpoint>, c: real, k: nat): (r: Option<nat>)
    requires k <= |table|
    ensures r.Some? ==> k <= r.value < |table| && Covers(table[r.value], c)
    ensures r.Some? ==> forall j :: k <= j < r.value ==> !Covers(table[j], c)
    ensures r.None? ==> forall j :: k <= j < |table| ==> !Covers(table[j], c)
    decreases |table| - k
  {
    if k == |table| then None
    else if Covers(table[k], c) then Some(k)
    else FindRow(table, c, k + 1)
  }

  /** The row `find(...) ?? pm25Breakpoints[length - 1]` selects: the first
      covering row, or the last row when no row covers the concentration. */
  function SelectRow(c: real): (i: nat)
    ensures i < |Pm25Breakpoints|
    ensures forall j :: 0 <= j < i ==> !Covers(Pm25Breakpoints[j], c)
    ensures Covers(Pm25Breakpoints[i], c) ||
            (i == |Pm25Breakpoints| - 1 && forall j :: 0 <= j < |Pm25Breakpoints| ==> !Covers(Pm25Breakpoints[j], c))
  {
    match FindRow(Pm25Breakpoints, c, 0)
    case Some(i) => i
    case None => |Pm25Breakpoints| - 1
  }

  /** `Math.round`: the nearest integer, halves rounded up. */
  function Round(x: real): (r: int)
    ensures r as real - 0.5 <= x < r as real + 0.5
  {
    (x + 0.5).Floor
  }

  /** The interpolation `((iHigh - iLow) / (cHigh - cLow)) * (c - cLow) + iLow`. */
  function Interpolate(b: Breakpoint, c: real): real
    requires b.cLow < b.cHigh
  {
    ((b.iHigh - b.iLow) as real / (b.cHigh - b.cLow)) * (c - b.cLow) + b.iLow as real
  }

  /** `pm25ToAqi`. */
  function Pm25ToAqi(pm25: real): (r: AqiResult)
    ensures r.band == Pm25Breakpoints[SelectRow(pm25)].band
    ensures r.value as real - 0.5 <= Interpolate(Pm25Breakpoints[SelectRow(pm25)], pm25) < r.value as real + 0.5
  {
    TableWellFormed();
    var b := Pm25Breakpoints[SelectRow(pm25)];
    AqiResult(Round(Interpolate(b, pm25)), b.band)
  }

  // ---------------------------------------------------------------------
  // Properties

  /** A concentration covered by row i selects row i. */
  lemma CoveredSelectsRow(i: nat, c: real)
    requires i < |Pm25Breakpoints| && Covers(Pm25Breakpoints[i], c)
    ensures SelectRow(c) == i
  {
    TableWellFormed();
  }

  /** Inside an interval, the interpolant stays inside the index range. */
  lemma InterpolateWithin(b: Breakpoint, c: real)
    requires b.cLow < b.cHigh && b.iLow <= b.iHigh && Covers(b, c)
    ensures b.iLow as real <= Interpolate(b, c) <= b.iHigh as real
  {
    var w := b.cHigh - b.cLow;
    var d := (b.iHigh - b.iLow) as real;
    var slope := d / w;
    assert slope * w == d;
    assert 0.0 <= slope;
    var t := c - b.cLow;
    assert 0.0 <= t <= w;
    MulMonotone(slope, 0.0, t);
    MulMonotone(slope, t, w);
  }

  lemma MulMonotone(k: real, x: real, y: real)
    requires 0.0 <= k && x <= y
    ensures k * x <= k * y
  {
  }

  /** `Math.round` is monotone. */
  lemma RoundMonotone(x: real, y: real)
    requires x <= y
    ensures Round(x) <= Round(y)
  {
  }

  /** Rounding a value between two integers stays between them. */
  lemma RoundWithin(x: real, lo: int, hi: int)
    requires lo as real <= x <= hi as real
    ensures lo <= Round(x) <= hi
  {
  }

  /** The lower end of every row maps to its lower index and the upper end to
      its upper index, each with the row's band. */
  lemma BreakpointEnds(i: nat)
    requires i < |Pm25Breakpoints|
    ensures Pm25ToAqi(Pm25Breakpoints[i].cLow) == AqiResult(Pm25Breakpoints[i].iLow, Pm25Breakpoints[i].band)
    ensures Pm25ToAqi(Pm25Breakpoints[i].cHigh) == AqiResult(Pm25Breakpoints[i].iHigh, Pm25Breakpoints[i].band)
  {
    var b := Pm25Breakpoints[i];
    CoveredSelectsRow(i, b.cLow);
    CoveredSelectsRow(i, b.cHigh);
    assert Interpolate(b, b.cLow) == b.iLow as real;
    var slope := (b.iHigh - b.iLow) as real / (b.cHigh - b.cLow);
    assert slope * (b.cHigh - b.cLow) == (b.iHigh - b.iLow) as real;
    assert Interpolate(b, b.cHigh) == b.iHigh as real;
  }

  /** A concentration inside row i's closed interval gets row i's band and a
      value in [iLow, iHigh]. */
  lemma CoveredValueInRow(i: nat, c: real)
    requires i < |Pm25Breakpoints| && Covers(Pm25Breakpoints[i], c)
    ensures Pm25ToAqi(c).band == Pm25Breakpoints[i].band
    ensures Pm25Breakpoints[i].iLow <= Pm25ToAqi(c).value <= Pm25Breakpoints[i].iHigh
  {
    var b := Pm25Breakpoints[i];
    CoveredSelectsRow(i, c);
    InterpolateWithin(b, c);
    RoundWithin(Interpolate(b, c), b.iLow, b.iHigh);
  }

  /** Within one row the AQI value does not decrease as the concentration grows. */
  lemma MonotoneInRow(i: nat, c1: real, c2: real)
    requires i < |Pm25Breakpoints|
    requires Covers(Pm25Breakpoints[i], c1) && Covers(Pm25Breakpoints[i], c2) && c1 <= c2
    ensures Pm25ToAqi(c1).value <= Pm25ToAqi(c2).value
  {
    var b := Pm25Breakpoints[i];
    CoveredSelectsRow(i, c1);
    CoveredSelectsRow(i, c2);
    var slope := (b.iHigh - b.iLow) as real / (b.cHigh - b.cLow);
    assert 0.0 <= slope;
    MulMonotone(slope, c1 - b.cLow, c2 - b.cLow);
    RoundMonotone(Interpolate(b, c1), Interpolate(b, c2));
  }

  /** A concentration that no row covers (a negative one, one above 500.4, or one
      in a 0.1-wide gap between rows) is interpolated on the last row and is
      labelled hazardous. */
  lemma UncoveredFallsBack(c: real)
    requires forall j :: 0 <= j < |Pm25Breakpoints| ==> !Covers(Pm25Breakpoints[j], c)
    ensures Pm25ToAqi(c).band == Hazardous
    ensures Pm25ToAqi(c).value == Round(Interpolate(Pm25Breakpoints[4], c))
  {
  }

  /** The gap between the good and the moderate rows falls back to the last
      row: 12.05 ug/m3 reads as AQI 83, "hazardous". */
  lemma GapExample()
    ensures Pm25ToAqi(12.05) == AqiResult(83, Hazardous)
  {
    var c := 12.05;
    assert forall j :: 0 <= j < |Pm25Breakpoints| ==> !Covers(Pm25Breakpoints[j], c);
    var b := Pm25Breakpoints[4];
    var x := Interpolate(b, c);
    assert 82.5 <= x < 83.5 by {
      assert x == (299.0 / 349.9) * (12.05 - 150.5) + 201.0;
    }
    assert Round(x) == 83;
  }
}
