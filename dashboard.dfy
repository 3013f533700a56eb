/** The dashboard page of app/page.tsx: the station filters, the two header
    statistics, and the effect that hydrates the store from the page's query
    parameters on mount. */
module Dashboard {
  import opened Common
  import opened Js
  import opened Types
  import opened Store

  // ---------------------------------------------------------------------
  // Filters

  /** `s.aqi > aqiThreshold`; no AQI is greater than NaN. */
  predicate AboveThreshold(t: Num, s: Station)
  {
    t.Int? && s.aqi > t.value
  }

  /** `s.anomaly ?? 0`. */
  function AnomalyOf(s: Station): int
  {
    s.anomaly.GetOr(0)
  }

  /** `(s.anomaly ?? 0) >= 75`. */
  predicate IsAnomalous(s: Station)
  {
    AnomalyOf(s) >= 75
  }

  /** `filteredStations`: the threshold filter when a threshold is set, then the
      anomaly filter when anomalies-only is on. */
  function FilterStations(stations: seq<Station>, threshold: Option<Num>, anomaliesOnly: bool): seq<Station>
  {
    var byAqi := if threshold.Some? then Filter(stations, (s: Station) => AboveThreshold(threshold.value, s)) else stations;
    if anomaliesOnly then Filter(byAqi, IsAnomalous) else byAqi
  }

  /** Whether a station passes both filters. */
  predicate Shown(s: Station, threshold: Option<Num>, anomaliesOnly: bool)
  {
    (threshold.None? || AboveThreshold(threshold.value, s)) && (!anomaliesOnly || IsAnomalous(s))
  }

  lemma {:induction false} FilterFilter<T>(s: seq<T>, p: T -> bool, q: T -> bool, pq: T -> bool)
    requires forall x :: pq(x) == (p(x) && q(x))
    ensures Filter(Filter(s, p), q) == Filter(s, pq)
  {
    if s != [] {
      FilterFilter(s[1..], p, q, pq);
      var rest := Filter(s[1..], p);
      if p(s[0]) {
        assert Filter(s, p) == [s[0]] + rest;
        assert Filter(s, p)[1..] == rest;
      }
    }
  }

  /** The two filters in a row are one filter by `Shown`. */
  lemma FilterStationsIsFilter(stations: seq<Station>, threshold: Option<Num>, anomaliesOnly: bool)
    ensures FilterStations(stations, threshold, anomaliesOnly) ==
      Filter(stations, (s: Station) => Shown(s, threshold, anomaliesOnly))
  {
    var shown := (s: Station) => Shown(s, threshold, anomaliesOnly);
    if threshold.Some? {
      var above := (s: Station) => AboveThreshold(threshold.value, s);
      if anomaliesOnly {
        FilterFilter(stations, above, IsAnomalous, shown);
      } else {
        FilterFilter(stations, above, (s: Station) => true, shown);
        FilterKeepsAll(Filter(stations, above), (s: Station) => true);
      }
    } else {
      if anomaliesOnly {
        FilterFilter(stations, (s: Station) => true, IsAnomalous, shown);
        FilterKeepsAll(stations, (s: Station) => true);
      } else {
        FilterKeepsAll(stations, shown);
      }
    }
  }

  /** A station is shown exactly when it is in the list and passes both
      filters: with a threshold t its AQI is greater than t (so a NaN threshold
      shows nothing), and with anomalies-only its anomaly, missing read as 0,
      is at least 75. The shown list keeps the stations' order, and with no
      filter active it is the whole list. */
  lemma FilterStationsMeaning(stations: seq<Station>, threshold: Option<Num>, anomaliesOnly: bool)
    ensures forall s :: s in FilterStations(stations, threshold, anomaliesOnly) <==>
      s in stations && Shown(s, threshold, anomaliesOnly)
    ensures IsSubsequence(FilterStations(stations, threshold, anomaliesOnly), stations)
    ensures threshold.None? && !anomaliesOnly ==> FilterStations(stations, threshold, anomaliesOnly) == stations
  {
    var shown := (s: Station) => Shown(s, threshold, anomaliesOnly);
    FilterStationsIsFilter(stations, threshold, anomaliesOnly);
    var r := Filter(stations, shown);
    forall s ensures s in r <==> s in stations && Shown(s, threshold, anomaliesOnly) {
      if s in r {
        var i :| 0 <= i < |r| && r[i] == s;
        assert r[i] in multiset(stations);
      }
      if s in stations && Shown(s, threshold, anomaliesOnly) {
        var i :| 0 <= i < |stations| && stations[i] == s;
        FilterComplete(stations, shown, i);
      }
    }
    FilterIsSubsequence(stations, shown);
  }

  // ---------------------------------------------------------------------
  // Statistics

  function Aqis(ss: seq<Station>): (r: seq<real>)
    ensures |r| == |ss| && forall i :: 0 <= i < |ss| ==> r[i] == ss[i].aqi as real
  {
    seq(|ss|, i requires 0 <= i < |ss| => ss[i].aqi as real)
  }

  /** `avgAqi`: 0 for no stations, otherwise the mean AQI. */
  function AvgAqi(filtered: seq<Station>): real
  {
    if |filtered| == 0 then 0.0 else Mean(Aqis(filtered))
  }

  /** The average of a non-empty list lies between its least and greatest AQI. */
  lemma AvgAqiBetween(filtered: seq<Station>)
    requires |filtered| > 0
    ensures exists i :: 0 <= i < |filtered| && filtered[i].aqi as real <= AvgAqi(filtered)
    ensures exists j :: 0 <= j < |filtered| && AvgAqi(filtered) <= filtered[j].aqi as real
  {
    MeanBetweenElements(Aqis(filtered));
  }

  /** `anomalies`: how many shown stations are anomalous. */
  function AnomalyCount(filtered: seq<Station>): (n: nat)
    ensures n <= |filtered|
  {
    |Filter(filtered, IsAnomalous)|
  }

  /** With anomalies-only on, every shown station counts. */
  lemma AnomalyCountWhenOnly(stations: seq<Station>, threshold: Option<Num>)
    ensures AnomalyCount(FilterStations(stations, threshold, true)) == |FilterStations(stations, threshold, true)|
  {
    var byAqi := if threshold.Some? then Filter(stations, (s: Station) => AboveThreshold(threshold.value, s)) else stations;
    FilterKeepsAll(Filter(byAqi, IsAnomalous), IsAnomalous);
  }

  // ---------------------------------------------------------------------
  // Hydration from the query string

  /** Query parameters as an ordered list of key/value pairs. */
  type Params = seq<(string, string)>

  /** `searchParams.get(key)`: the value of the first pair with that key. */
  function Get(params: Params, key: string): (r: Option<string>)
    ensures r.Some? ==> exists i :: 0 <= i < |params| && params[i] == (key, r.value)
                                   && forall j :: 0 <= j < i ==> params[j].0 != key
    ensures r.None? ==> forall i :: 0 <= i < |params| ==> params[i].0 != key
  {
    if params == [] then None
    else if params[0].0 == key then Some(params[0].1)
    else
      var r := Get(params[1..], key);
      if r.Some? then
        var i :| 0 <= i < |params[1..]| && params[1..][i] == (key, r.value)
                && forall j :: 0 <= j < i ==> params[1..][j].0 != key;
        assert params[i + 1] == (key, r.value);
        assert forall j :: 0 <= j < i + 1 ==> params[j].0 != key by {
          forall j | 0 <= j < i + 1
            ensures params[j].0 != key
          {
            if j > 0 {
              assert params[j] == params[1..][j - 1];
            }
          }
        }
        r
      else r
  }

  /** The state after the hydration effect, from the state s it runs in. */
  function Hydrated(s: StoreState, params: Params): StoreState
  {
    var cityParam := Get(params, "city");
    var aqiParam := Get(params, "aqi_gt");
    var radiusParam := Get(params, "radius");
    var anomaliesParam := Get(params, "anomalies");
    var selectParam := Get(params, "select");
    var s1 := if Truthy(cityParam) then s.(city := cityParam.value) else s;
    var s2 := if Truthy(aqiParam) then s1.(aqiThreshold := Some(ParseInt(aqiParam.value))) else s1;
    var s3 := if Truthy(radiusParam) then s2.(radiusKm := ParseInt(radiusParam.value)) else s2;
    var s4 := if anomaliesParam == Some("1") && !s.showAnomaliesOnly then Toggled(s3) else s3;
    if Truthy(selectParam) then s4.(selectedId := selectParam) else s4
  }

  /** The hydrated state, as one update of the five fields the effect may set. */
  lemma HydratedUpdate(s: StoreState, params: Params)
    ensures Hydrated(s, params) == s.(
      city := if Truthy(Get(params, "city")) then Get(params, "city").value else s.city,
      aqiThreshold := if Truthy(Get(params, "aqi_gt")) then Some(ParseInt(Get(params, "aqi_gt").value)) else s.aqiThreshold,
      radiusKm := if Truthy(Get(params, "radius")) then ParseInt(Get(params, "radius").value) else s.radiusKm,
      showAnomaliesOnly := Get(params, "anomalies") == Some("1") || s.showAnomaliesOnly,
      selectedId := if Truthy(Get(params, "select")) then Get(params, "select") else s.selectedId)
  {
  }

  /** Hydration changes only the fields whose parameter is present and
      non-empty; `anomalies=1` leaves the flag on whatever it was, any other
      value leaves it as it was. */
  lemma HydratedChangesOnlyPresent(s: StoreState, params: Params)
    ensures var h := Hydrated(s, params);
      h.center == s.center && h.stations == s.stations && h.weather == s.weather &&
      h.lastUpdated == s.lastUpdated && h.loading == s.loading && h.error == s.error &&
      h.city == (if Truthy(Get(params, "city")) then Get(params, "city").value else s.city) &&
      h.aqiThreshold == (if Truthy(Get(params, "aqi_gt")) then Some(ParseInt(Get(params, "aqi_gt").value)) else s.aqiThreshold) &&
      h.radiusKm == (if Truthy(Get(params, "radius")) then ParseInt(Get(params, "radius").value) else s.radiusKm) &&
      h.showAnomaliesOnly == (Get(params, "anomalies") == Some("1") || s.showAnomaliesOnly) &&
      h.selectedId == (if Truthy(Get(params, "select")) then Get(params, "select") else s.selectedId)
  {
    HydratedUpdate(s, params);
  }

  /** The hydration effect, as the sequence of setter calls it makes. */
  method Hydrate(store: AppStore, params: Params)
    modifies store
    ensures store.State() == Hydrated(old(store.State()), params)
  {
    var showAnomaliesOnly := store.showAnomaliesOnly;
    var cityParam := Get(params, "city");
    var aqiParam := Get(params, "aqi_gt");
    var radiusParam := Get(params, "radius");
    var anomaliesParam := Get(params, "anomalies");
    var selectParam := Get(params, "select");
    if Truthy(cityParam) {
      store.SetCity(cityParam.value);
    }
    if Truthy(aqiParam) {
      store.SetThreshold(Some(ParseInt(aqiParam.value)));
    }
    if Truthy(radiusParam) {
      store.SetRadius(ParseInt(radiusParam.value));
    }
    if anomaliesParam == Some("1") {
      if !showAnomaliesOnly {
        store.ToggleAnomaliesOnly();
      }
    }
    if Truthy(selectParam) {
      store.SetSelected(selectParam);
    }
  }
}
