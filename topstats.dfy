/** The header statistics of components/TopStats.tsx: the colour and the
    gradient of the average AQI, the widths of the two bars, and the four
    cards (or four placeholders while loading). */
module TopStats {
  import opened Common
  import opened Aqi
  import opened Types
  import opened Dashboard

  /** The tier the `<= 50 / <= 100 / <= 150 / <= 200 / else` chain picks. */
  function Tier(aqi: real): (t: nat)
    ensures t < 5
  {
    if aqi <= 50.0 then 0
    else if aqi <= 100.0 then 1
    else if aqi <= 150.0 then 2
    else if aqi <= 200.0 then 3
    else 4
  }

  /** `getAqiColor`. */
  function AqiColor(aqi: real): string
  {
    if aqi <= 50.0 then "text-emerald-400"
    else if aqi <= 100.0 then "text-yellow-400"
    else if aqi <= 150.0 then "text-orange-400"
    else if aqi <= 200.0 then "text-red-400"
    else "text-purple-400"
  }

  /** `getAqiGradient`. */
  function AqiGradient(aqi: real): string
  {
    if aqi <= 50.0 then "from-emerald-500 to-emerald-400"
    else if aqi <= 100.0 then "from-yellow-500 to-yellow-400"
    else if aqi <= 150.0 then "from-orange-500 to-orange-400"
    else if aqi <= 200.0 then "from-red-500 to-red-400"
    else "from-purple-500 to-purple-400"
  }

  /** The five colours are different from each other, and so are the five
      gradients. */
  lemma ColorsDistinct()
    ensures forall a, b :: Tier(a) != Tier(b) ==> AqiColor(a) != AqiColor(b)
    ensures forall a, b :: Tier(a) != Tier(b) ==> AqiGradient(a) != AqiGradient(b)
  {
    assert "text-emerald-400"[5] == 'e' && "text-yellow-400"[5] == 'y' && "text-orange-400"[5] == 'o';
    assert "text-red-400"[5] == 'r' && "text-purple-400"[5] == 'p';
    assert "from-emerald-500 to-emerald-400"[5] == 'e' && "from-yellow-500 to-yellow-400"[5] == 'y';
    assert "from-orange-500 to-orange-400"[5] == 'o' && "from-red-500 to-red-400"[5] == 'r';
    assert "from-purple-500 to-purple-400"[5] == 'p';
  }

  /** Colour and gradient use the same cut points: two averages get the same
      colour exactly when they get the same gradient, exactly when they are in
      the same tier. */
  lemma ColorAgreesWithGradient(a: real, b: real)
    ensures AqiColor(a) == AqiColor(b) <==> Tier(a) == Tier(b)
    ensures AqiGradient(a) == AqiGradient(b) <==> Tier(a) == Tier(b)
  {
    ColorsDistinct();
  }

  /** For a concentration some breakpoint row covers, the colour tier of its AQI
      is the position of its band in good < moderate < ... < hazardous. */
  lemma TierMatchesBand(c: real)
    requires exists i :: 0 <= i < |Pm25Breakpoints| && Covers(Pm25Breakpoints[i], c)
    ensures Tier(Pm25ToAqi(c).value as real) == BandRank(Pm25ToAqi(c).band)
  {
    var i :| 0 <= i < |Pm25Breakpoints| && Covers(Pm25Breakpoints[i], c);
    CoveredValueInRow(i, c);
  }

  /** `Math.min(x, 100)`. */
  function MinHundred(x: real): real
  {
    if x < 100.0 then x else 100.0
  }

  /** The width, in percent, of the AQI bar. */
  function AqiBarWidth(avgAqi: real): (w: real)
    ensures w <= 100.0
    ensures avgAqi >= 0.0 ==> w >= 0.0
    ensures avgAqi <= 300.0 ==> w == avgAqi / 3.0
  {
    MinHundred(avgAqi / 300.0 * 100.0)
  }

  /** The anomaly bar: drawn only when there are anomalies; `anomalies / 0` is
      Infinity, which the `min` turns into a full bar. */
  function AnomalyBarWidth(anomalies: nat, stations: nat): (w: Option<real>)
    ensures w.Some? <==> anomalies > 0
    ensures w.Some? ==> 0.0 < w.value <= 100.0
  {
    if anomalies == 0 then None
    else if stations == 0 then Some(100.0)
    else Some(MinHundred(anomalies as real / stations as real * 100.0))
  }

  /** With the counts the dashboard passes (anomalies among the shown
      stations), the bar is the share of anomalous stations among the shown
      ones. */
  lemma AnomalyBarIsShare(filtered: seq<Station>)
    requires AnomalyCount(filtered) > 0
    ensures AnomalyBarWidth(AnomalyCount(filtered), |filtered|) ==
      Some(AnomalyCount(filtered) as real / |filtered| as real * 100.0)
  {
    var n := AnomalyCount(filtered) as real;
    var d := |filtered| as real;
    assert n <= d;
    assert n / d <= 1.0;
  }

  /** The props the page passes. */
  datatype TopStatsProps = TopStatsProps(avgAqi: real, stations: nat, anomalies: nat, temp: real, loading: bool)

  /** What a card shows. */
  datatype StatCard =
    | Placeholder
    | AqiCard(value: int, color: string, gradient: string, width: real)
    | StationsCard(count: nat)
    | AnomaliesCard(count: nat, highlighted: bool, bar: Option<real>)
    | TemperatureCard(celsius: int)

  /** The rendered cards. */
  function Render(p: TopStatsProps): (cards: seq<StatCard>)
    ensures |cards| == 4
    ensures forall i :: 0 <= i < 4 ==> (cards[i].Placeholder? <==> p.loading)
  {
    if p.loading then [Placeholder, Placeholder, Placeholder, Placeholder]
    else [
      AqiCard(Round(p.avgAqi), AqiColor(p.avgAqi), AqiGradient(p.avgAqi), AqiBarWidth(p.avgAqi)),
      StationsCard(p.stations),
      AnomaliesCard(p.anomalies, p.anomalies > 0, AnomalyBarWidth(p.anomalies, p.stations)),
      TemperatureCard(Round(p.temp))
    ]
  }

  /** Loading shows four placeholders and no value; otherwise the first card
      shows the rounded average within half a unit, and the anomaly count is
      highlighted exactly when its bar is drawn. */
  lemma RenderShows(p: TopStatsProps)
    ensures p.loading ==> Render(p) == [Placeholder, Placeholder, Placeholder, Placeholder]
    ensures !p.loading ==>
      Render(p)[0].value as real - 0.5 <= p.avgAqi < Render(p)[0].value as real + 0.5 &&
      (Render(p)[2].highlighted <==> Render(p)[2].bar.Some?)
  {
  }
}
