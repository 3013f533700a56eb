/** The station details panel of components/DetailsPanel.tsx: the selected
    station, the share link it copies (which the dashboard's hydration reads
    back), the band colours, the anomaly badges, the "centre map" action and
    the classification of the history reply. */
module Details {
  import opened Common
  import opened Js
  import opened Aqi
  import opened Types
  import opened Store
  import opened Dashboard

  // ---------------------------------------------------------------------
  // Selection

  /** `stations.find((s) => s.id === selectedId)`. */
  function SelectedStation(stations: seq<Station>, selectedId: Option<string>): (r: Option<Station>)
    ensures r.Some? ==> (selectedId.Some? &&
      exists i :: 0 <= i < |stations| && stations[i] == r.value && r.value.id == selectedId.value &&
        forall j :: 0 <= j < i ==> stations[j].id != selectedId.value)
    ensures r.None? ==> selectedId.None? || forall i :: 0 <= i < |stations| ==> stations[i].id != selectedId.value
  {
    if selectedId.None? || stations == [] then None
    else if stations[0].id == selectedId.value then Some(stations[0])
    else
      var r := SelectedStation(stations[1..], selectedId);
      assert forall i :: 1 <= i < |stations| ==> stations[i] == stations[1..][i - 1];
      r
  }

  /** `handleCenterMap`: centre the map on the selected station, if any. */
  method CenterMap(store: AppStore)
    modifies store
    ensures match SelectedStation(old(store.stations), old(store.selectedId))
      case Some(st) => store.State() == old(store.State()).(center := Center(st.lon, st.lat))
      case None => store.State() == old(store.State())
  {
    var selected := SelectedStation(store.stations, store.selectedId);
    if selected.Some? {
      store.SetCenter(Center(selected.value.lon, selected.value.lat));
    }
  }

  // ---------------------------------------------------------------------
  // Share link

  /** `params.set(key, value)`: replace the first pair with that key and drop
      the others, or append a new pair. */
  function SetParam(params: Params, key: string, value: string): (r: Params)
    ensures Get(r, key) == Some(value)
    ensures forall k :: k != key ==> Get(r, k) == Get(params, k)
  {
    if params == [] then [(key, value)]
    else if params[0].0 == key then [(key, value)] + RemoveKey(params[1..], key)
    else [params[0]] + SetParam(params[1..], key, value)
  }

  /** `params.delete(key)`, the removal `set` does after the first pair. */
  function RemoveKey(params: Params, key: string): (r: Params)
    ensures Get(r, key).None?
    ensures forall k :: k != key ==> Get(r, k) == Get(params, k)
  {
    if params == [] then []
    else if params[0].0 == key then RemoveKey(params[1..], key)
    else [params[0]] + RemoveKey(params[1..], key)
  }

  /** Setting a key the list does not hold appends a pair. */
  lemma {:induction false} SetParamNewKey(params: Params, key: string, value: string)
    requires Get(params, key).None?
    ensures SetParam(params, key, value) == params + [(key, value)]
  {
    if params != [] {
      SetParamPassesHead(params, key, value);
      SetParamNewKey(params[1..], key, value);
      assert [params[0]] + (params[1..] + [(key, value)]) == params + [(key, value)];
    }
  }

  /** A first pair with another key stays in front, and the search goes on
      behind it. */
  lemma SetParamPassesHead(params: Params, key: string, value: string)
    requires params != [] && params[0].0 != key
    ensures SetParam(params, key, value) == [params[0]] + SetParam(params[1..], key, value)
    ensures Get(params[1..], key) == Get(params, key)
  {
  }

  /** A `params.set` that a condition guards, on a key not yet present. */
  function AppendIf(params: Params, cond: bool, key: string, value: string): Params
  {
    if cond then params + [(key, value)] else params
  }

  lemma {:induction false} GetAppend(params: Params, key: string, value: string, k: string)
    ensures Get(params + [(key, value)], k) ==
      if Get(params, k).Some? then Get(params, k) else if k == key then Some(value) else None
  {
    if params == [] {
      assert params + [(key, value)] == [(key, value)];
    } else {
      GetAppend(params[1..], key, value, k);
      assert (params + [(key, value)])[1..] == params[1..] + [(key, value)];
    }
  }

  lemma GetAppendIf(params: Params, cond: bool, key: string, value: string, k: string)
    ensures Get(AppendIf(params, cond, key, value), k) ==
      if Get(params, k).Some? then Get(params, k) else if cond && k == key then Some(value) else None
  {
    GetAppend(params, key, value, k);
    if !cond && Get(params, k).None? {
      assert Get(AppendIf(params, cond, key, value), k) == None;
    }
  }

  /** The five parameter names are pairwise different. */
  lemma KeysDistinct()
    ensures "city" != "select" && "city" != "aqi_gt" && "city" != "radius" && "city" != "anomalies"
    ensures "select" != "aqi_gt" && "select" != "radius" && "select" != "anomalies"
    ensures "aqi_gt" != "radius" && "aqi_gt" != "anomalies" && "radius" != "anomalies"
  {
    assert "city"[0] == 'c' && "select"[0] == 's' && "aqi_gt"[0] == 'a';
    assert "radius"[0] == 'r' && "anomalies"[0] == 'a';
    assert "aqi_gt"[1] == 'q' && "anomalies"[1] == 'n';
  }

  /** The value of `aqi_gt`, when a threshold is set. */
  function ThresholdText(s: StoreState): string
  {
    if s.aqiThreshold.Some? then NumToString(s.aqiThreshold.value) else ""
  }

  /** The link's parameters after `city` and `select`. */
  function ShareBase(s: StoreState, st: Station): Params
  {
    [("city", s.city), ("select", st.id)]
  }

  /** ... then `aqi_gt` when a threshold is set ... */
  function ShareWithThreshold(s: StoreState, st: Station): Params
  {
    AppendIf(ShareBase(s, st), s.aqiThreshold.Some?, "aqi_gt", ThresholdText(s))
  }

  /** ... then `radius` when it is not the default 3 ... */
  function ShareWithRadius(s: StoreState, st: Station): Params
  {
    AppendIf(ShareWithThreshold(s, st), s.radiusKm != Int(DefaultRadiusKm), "radius", NumToString(s.radiusKm))
  }

  /** ... and `anomalies=1` when anomalies-only is on: the query string
      `handleCopyLink` builds for the selected station. */
  function ShareParams(s: StoreState, st: Station): Params
  {
    AppendIf(ShareWithRadius(s, st), s.showAnomaliesOnly, "anomalies", "1")
  }

  lemma GetShare(s: StoreState, st: Station, k: string)
    ensures Get(ShareParams(s, st), k) ==
      if Get(ShareBase(s, st), k).Some? then Get(ShareBase(s, st), k)
      else if s.aqiThreshold.Some? && k == "aqi_gt" then Some(ThresholdText(s))
      else if s.radiusKm != Int(DefaultRadiusKm) && k == "radius" then Some(NumToString(s.radiusKm))
      else if s.showAnomaliesOnly && k == "anomalies" then Some("1")
      else None
  {
    GetAppendIf(ShareBase(s, st), s.aqiThreshold.Some?, "aqi_gt", ThresholdText(s), k);
    GetAppendIf(ShareWithThreshold(s, st), s.radiusKm != Int(DefaultRadiusKm), "radius", NumToString(s.radiusKm), k);
    GetAppendIf(ShareWithRadius(s, st), s.showAnomaliesOnly, "anomalies", "1", k);
  }

  /** The link always carries `city` and `select`; it carries `aqi_gt` exactly
      when a threshold is set, `radius` exactly when the radius is not 3, and
      `anomalies=1` exactly when anomalies-only is on. */
  lemma ShareParamsCarries(s: StoreState, st: Station)
    ensures Get(ShareParams(s, st), "city") == Some(s.city)
    ensures Get(ShareParams(s, st), "select") == Some(st.id)
    ensures Get(ShareParams(s, st), "aqi_gt") ==
      (if s.aqiThreshold.Some? then Some(NumToString(s.aqiThreshold.value)) else None)
    ensures Get(ShareParams(s, st), "radius") ==
      (if s.radiusKm != Int(DefaultRadiusKm) then Some(NumToString(s.radiusKm)) else None)
    ensures Get(ShareParams(s, st), "anomalies") == (if s.showAnomaliesOnly then Some("1") else None)
  {
    KeysDistinct();
    GetShare(s, st, "city");
    GetShare(s, st, "select");
    GetShare(s, st, "aqi_gt");
    GetShare(s, st, "radius");
    GetShare(s, st, "anomalies");
  }

  /** Each guarded `params.set` of `handleCopyLink` sets a key not yet present,
      so it appends. */
  lemma CopyLinkSteps(s: StoreState, st: Station)
    ensures SetParam(SetParam([], "city", s.city), "select", st.id) == ShareBase(s, st)
    ensures s.aqiThreshold.Some? ==>
      SetParam(ShareBase(s, st), "aqi_gt", ThresholdText(s)) == ShareWithThreshold(s, st)
    ensures s.radiusKm != Int(DefaultRadiusKm) ==>
      SetParam(ShareWithThreshold(s, st), "radius", NumToString(s.radiusKm)) == ShareWithRadius(s, st)
    ensures s.showAnomaliesOnly ==>
      SetParam(ShareWithRadius(s, st), "anomalies", "1") == ShareParams(s, st)
  {
    KeysDistinct();
    var base := ShareBase(s, st);
    SetParamNewKey([("city", s.city)], "select", st.id);
    assert [("city", s.city)] + [("select", st.id)] == base;
    GetAppendIf(base, s.aqiThreshold.Some?, "aqi_gt", ThresholdText(s), "radius");
    GetAppendIf(base, s.aqiThreshold.Some?, "aqi_gt", ThresholdText(s), "anomalies");
    GetAppendIf(ShareWithThreshold(s, st), s.radiusKm != Int(DefaultRadiusKm), "radius", NumToString(s.radiusKm), "anomalies");
    if s.aqiThreshold.Some? {
      SetParamNewKey(base, "aqi_gt", ThresholdText(s));
    }
    if s.radiusKm != Int(DefaultRadiusKm) {
      SetParamNewKey(ShareWithThreshold(s, st), "radius", NumToString(s.radiusKm));
    }
    if s.showAnomaliesOnly {
      SetParamNewKey(ShareWithRadius(s, st), "anomalies", "1");
    }
  }

  /** `handleCopyLink`: nothing without a selected station; otherwise the
      parameters built by successive `params.set` calls. */
  method CopyLink(store: AppStore) returns (link: Option<Params>)
    ensures match SelectedStation(store.stations, store.selectedId)
      case None => link.None?
      case Some(st) => link == Some(ShareParams(store.State(), st))
  {
    var selected := SelectedStation(store.stations, store.selectedId);
    if selected.None? {
      return None;
    }
    var st := selected.value;
    CopyLinkSteps(store.State(), st);
    var params: Params := [];
    params := SetParam(params, "city", store.city);
    params := SetParam(params, "select", st.id);
    var threshold := store.aqiThreshold;
    if threshold.Some? {
      params := SetParam(params, "aqi_gt", NumToString(threshold.value));
    }
    var radius := store.radiusKm;
    if radius != Int(DefaultRadiusKm) {
      params := SetParam(params, "radius", NumToString(radius));
    }
    if store.showAnomaliesOnly {
      params := SetParam(params, "anomalies", "1");
    }
    link := Some(params);
  }

  lemma NumToStringNonEmpty(x: Num)
    ensures NumToString(x) != ""
  {
  }

  /** Round trip: hydrating a fresh store from the copied link restores the
      city, the selection, the threshold, the radius and the anomalies flag
      (a city or id that is the empty string is not read back, since an empty
      parameter is falsy). */
  lemma ShareLinkRoundTrip(c0: string, s: StoreState, st: Station)
    requires s.city != "" && st.id != ""
    ensures var h := Hydrated(InitialState(c0), ShareParams(s, st));
      h.city == s.city && h.selectedId == Some(st.id) && h.aqiThreshold == s.aqiThreshold &&
      h.radiusKm == s.radiusKm && h.showAnomaliesOnly == s.showAnomaliesOnly
  {
    var p := ShareParams(s, st);
    ShareParamsCarries(s, st);
    HydratedChangesOnlyPresent(InitialState(c0), p);
    if s.aqiThreshold.Some? {
      NumToStringNonEmpty(s.aqiThreshold.value);
      ParseNumToString(s.aqiThreshold.value);
    }
    if s.radiusKm != Int(DefaultRadiusKm) {
      NumToStringNonEmpty(s.radiusKm);
      ParseNumToString(s.radiusKm);
    }
  }

  // ---------------------------------------------------------------------
  // Colours and badges

  /** The badge classes all have the shape
      `bg-<hue>-500/20 text-<hue>-400 border-<hue>-500/30`. */
  function BadgeClass(hue: string): string
  {
    "bg-" + hue + "-500/20 text-" + hue + "-400 border-" + hue + "-500/30"
  }

  const SlateClass: string := BadgeClass("slate")

  /** `getBandColor`. */
  function GetBandColor(band: string): string
  {
    if band == "good" then BadgeClass("emerald")
    else if band == "moderate" then BadgeClass("yellow")
    else if band == "unhealthy" then BadgeClass("orange")
    else if band == "very-unhealthy" then BadgeClass("red")
    else if band == "hazardous" then BadgeClass("purple")
    else SlateClass
  }

  /** The hue `getBandColor` gives each band. */
  function BandHue(b: Band): string
  {
    match b
    case Good => "emerald"
    case Moderate => "yellow"
    case Unhealthy => "orange"
    case VeryUnhealthy => "red"
    case Hazardous => "purple"
  }

  lemma GetBandColorOfBand(b: Band)
    ensures GetBandColor(BandName(b)) == BadgeClass(BandHue(b))
  {
    match b
    case Good =>
    case Moderate => assert "moderate" != "good";
    case Unhealthy => assert "unhealthy" != "good" && "unhealthy" != "moderate";
    case VeryUnhealthy =>
      assert "very-unhealthy" != "good" && "very-unhealthy" != "moderate" && "very-unhealthy" != "unhealthy";
    case Hazardous =>
      assert "hazardous" != "good" && "hazardous" != "moderate" && "hazardous" != "unhealthy";
      assert "hazardous" != "very-unhealthy";
  }

  /** Different hues give different classes: the hue is read back from the
      class. */
  lemma BadgeClassInjective(h1: string, h2: string)
    requires BadgeClass(h1) == BadgeClass(h2)
    ensures h1 == h2
  {
    assert |h1| == |h2|;
    assert BadgeClass(h1)[3..3 + |h1|] == h1;
    assert BadgeClass(h2)[3..3 + |h2|] == h2;
  }

  /** The five bands get five different classes, none of them the fallback,
      and a string that names no band gets the fallback. */
  lemma BandColorsDistinct(b1: Band, b2: Band, other: string)
    requires BandFromName(other).None?
    ensures b1 != b2 ==> GetBandColor(BandName(b1)) != GetBandColor(BandName(b2))
    ensures GetBandColor(BandName(b1)) != SlateClass
    ensures GetBandColor(other) == SlateClass
  {
    GetBandColorOfBand(b1);
    GetBandColorOfBand(b2);
    if b1 != b2 && BadgeClass(BandHue(b1)) == BadgeClass(BandHue(b2)) {
      BadgeClassInjective(BandHue(b1), BandHue(b2));
    }
    if BadgeClass(BandHue(b1)) == SlateClass {
      BadgeClassInjective(BandHue(b1), "slate");
    }
  }

  /** The header badge reads "ANOMALOUS" when `anomaly && anomaly >= 75`. */
  predicate AnomalousBadge(st: Station)
  {
    st.anomaly.Some? && st.anomaly.value != 0 && st.anomaly.value >= 75
  }

  /** The anomaly score row is rendered when `anomaly !== undefined`. */
  predicate ScoreRowShown(st: Station)
  {
    st.anomaly.Some?
  }

  /** The badge agrees with the dashboard's anomaly filter, and it never shows
      without the score row. */
  lemma BadgeAgreesWithFilter(st: Station)
    ensures AnomalousBadge(st) <==> IsAnomalous(st)
    ensures AnomalousBadge(st) ==> ScoreRowShown(st)
  {
  }

  // ---------------------------------------------------------------------
  // History reply

  /** The history the panel charts for a reply: empty for a rejected request,
      a 404, a body that is not JSON or carries a truthy `error`, and for an
      object without a `series`; the points of an array body; otherwise the
      object's `series`. */
  function ClassifyHistory(reply: HttpReply<HistoryBody>): (h: seq<SeriesPoint>)
    ensures reply.Rejected? || (!IsOk(reply) && reply.status == 404) ==> h == []
    ensures reply.Response? && !(!IsOk(reply) && reply.status == 404) ==>
      match reply.body
      case Unparsable => h == []
      case SeriesList(ps) => h == ps
      case SeriesObject(err, series) => h == (if Truthy(err) then [] else series.GetOr([]))
  {
    if reply.Rejected? then []
    else if !IsOk(reply) && reply.status == 404 then []
    else
      match reply.body
      case Unparsable => []
      case SeriesList(ps) => ps
      case SeriesObject(err, series) =>
        if Truthy(err) then []
        else if series.Some? then series.value
        else []
  }
}
