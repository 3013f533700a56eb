/** The application store of store/useAppStore.ts: the dashboard's state, its
    one-field setters, and `refreshAll`, which fetches the stations of the
    current city, recentres the map, fetches the weather and scores the ten
    worst stations from their PM2.5 history.

    The upstream services are parameters: a function from the requested city
    to the stations reply, from the map centre to the weather reply and from a
    station id to its history reply. `refreshAll` is split at its first
    `await`: `BeginRefresh` is the synchronous prefix (what a caller that does
    not await it sees at once) and `FinishRefresh` the rest, run to completion
    with the replies given. */
module Store {
  import opened Common
  import opened Js
  import opened Aqi
  import opened Types
  import opened Anomaly

  // ---------------------------------------------------------------------
  // State

  /** The fields of `AppState`; `aqiThreshold` is `None` for `null`, the
      optional fields are `None` for `undefined`. */
  datatype StoreState = StoreState(
    city: string,
    center: Center,
    radiusKm: Num,
    aqiThreshold: Option<Num>,
    showAnomaliesOnly: bool,
    stations: seq<Station>,
    selectedId: Option<string>,
    weather: Option<Weather>,
    lastUpdated: Option<int>,
    loading: bool,
    error: Option<string>)

  /** `defaultCenter`, San Francisco. */
  const DefaultCenter: Center := Center(-122.4194, 37.7749)
  const DefaultRadiusKm: int := 3

  /** The environment `getDefaultCity` consults. */
  datatype Env = Env(isBrowser: bool, publicDefaultCity: Option<string>, defaultCity: Option<string>)

  /** `getDefaultCity`: in the browser only the public variable is visible. */
  function DefaultCity(env: Env): (city: string)
    ensures city != ""
    ensures city == "San Francisco" || Some(city) == env.publicDefaultCity ||
            (!env.isBrowser && Some(city) == env.defaultCity)
  {
    if env.isBrowser then Or(env.publicDefaultCity, "San Francisco")
    else Or(env.publicDefaultCity, Or(env.defaultCity, "San Francisco"))
  }

  /** The public variable, when set, wins everywhere; the server-only variable
      is never seen in the browser. */
  lemma DefaultCityPrecedence(env: Env, other: Option<string>)
    ensures Truthy(env.publicDefaultCity) ==> DefaultCity(env) == env.publicDefaultCity.value
    ensures env.isBrowser ==> DefaultCity(env) == DefaultCity(env.(defaultCity := other))
    ensures !Truthy(env.publicDefaultCity) && !(Truthy(env.defaultCity) && !env.isBrowser) ==>
      DefaultCity(env) == "San Francisco"
  {
  }

  /** The initial state of the store. */
  function InitialState(city: string): (s: StoreState)
    ensures s.city == city && s.center == DefaultCenter && s.radiusKm == Int(3)
    ensures s.aqiThreshold.None? && !s.showAnomaliesOnly && s.stations == []
    ensures s.selectedId.None? && s.weather.None? && s.lastUpdated.None?
    ensures !s.loading && s.error.None?
  {
    StoreState(city, DefaultCenter, Int(DefaultRadiusKm), None, false, [], None, None, None, false, None)
  }

  /** The state after `toggleAnomaliesOnly`. */
  function Toggled(s: StoreState): (t: StoreState)
    ensures t.showAnomaliesOnly != s.showAnomaliesOnly
    ensures t.(showAnomaliesOnly := s.showAnomaliesOnly) == s
  {
    s.(showAnomaliesOnly := !s.showAnomaliesOnly)
  }

  /** Toggling twice restores the state. */
  lemma ToggleTwiceIsIdentity(s: StoreState)
    ensures Toggled(Toggled(s)) == s
  {
  }

  // ---------------------------------------------------------------------
  // Map centre

  /** `isSF`: the lower-cased city contains "san francisco" or is "sf". */
  predicate IsSF(city: string)
  {
    Contains(ToLower(city), "san francisco") || ToLower(city) == "sf"
  }

  /** The San Francisco bounding box. */
  predicate InSFBox(s: Station)
  {
    s.lon >= -122.6 && s.lon <= -122.3 && s.lat >= 37.6 && s.lat <= 37.9
  }

  function Lons(ss: seq<Station>): (r: seq<real>)
    ensures |r| == |ss| && forall i :: 0 <= i < |ss| ==> r[i] == ss[i].lon
  {
    seq(|ss|, i requires 0 <= i < |ss| => ss[i].lon)
  }

  function Lats(ss: seq<Station>): (r: seq<real>)
    ensures |r| == |ss| && forall i :: 0 <= i < |ss| ==> r[i] == ss[i].lat
  {
    seq(|ss|, i requires 0 <= i < |ss| => ss[i].lat)
  }

  /** `[avgLon, avgLat]` over a non-empty list. */
  function MeanCenter(ss: seq<Station>): Center
    requires |ss| > 0
  {
    Center(Mean(Lons(ss)), Mean(Lats(ss)))
  }

  /** The centre `refreshAll` computes from the stations of `city`, starting
      from the centre `prev` it read when it began. */
  function ComputeCenter(city: string, prev: Center, stations: seq<Station>): Center
  {
    if |stations| == 0 then prev
    else if IsSF(city) then
      var sf := Filter(stations, InSFBox);
      if |sf| > 0 then MeanCenter(sf) else prev
    else MeanCenter(stations)
  }

  /** An empty station list keeps the previous centre. */
  lemma EmptyListKeepsCenter(city: string, prev: Center)
    ensures ComputeCenter(city, prev, []) == prev
  {
  }

  /** For San Francisco, the centre is the mean of the stations inside the box,
      and so lies inside the box; without such a station the previous centre
      is kept. */
  lemma SFCenter(city: string, prev: Center, stations: seq<Station>)
    requires IsSF(city)
    ensures (exists i :: 0 <= i < |stations| && InSFBox(stations[i])) ==>
      |Filter(stations, InSFBox)| > 0 &&
      ComputeCenter(city, prev, stations) == MeanCenter(Filter(stations, InSFBox)) &&
      -122.6 <= ComputeCenter(city, prev, stations).lon <= -122.3 &&
      37.6 <= ComputeCenter(city, prev, stations).lat <= 37.9
    ensures (forall i :: 0 <= i < |stations| ==> !InSFBox(stations[i])) ==>
      ComputeCenter(city, prev, stations) == prev
  {
    var sf := Filter(stations, InSFBox);
    if i :| 0 <= i < |stations| && InSFBox(stations[i]) {
      FilterComplete(stations, InSFBox, i);
      MeanWithin(Lons(sf), -122.6, -122.3);
      MeanWithin(Lats(sf), 37.6, 37.9);
    }
  }

  /** For any other city with stations, the centre is the mean of all station
      coordinates and lies between their least and greatest longitude and
      latitude. */
  lemma OtherCityCenter(city: string, prev: Center, stations: seq<Station>)
    requires !IsSF(city) && |stations| > 0
    ensures ComputeCenter(city, prev, stations) == MeanCenter(stations)
    ensures exists i :: 0 <= i < |stations| && stations[i].lon <= ComputeCenter(city, prev, stations).lon
    ensures exists i :: 0 <= i < |stations| && ComputeCenter(city, prev, stations).lon <= stations[i].lon
    ensures exists i :: 0 <= i < |stations| && stations[i].lat <= ComputeCenter(city, prev, stations).lat
    ensures exists i :: 0 <= i < |stations| && ComputeCenter(city, prev, stations).lat <= stations[i].lat
  {
    MeanBetweenElements(Lons(stations));
    MeanBetweenElements(Lats(stations));
  }

  // ---------------------------------------------------------------------
  // Top ten by AQI

  const TopCount: nat := 10

  predicate ByAqiDescending(s: seq<Station>)
  {
    forall i, j :: 0 <= i < j < |s| ==> s[i].aqi >= s[j].aqi
  }

  function InsertByAqi(x: Station, s: seq<Station>): (r: seq<Station>)
    requires ByAqiDescending(s)
    ensures ByAqiDescending(r) && multiset(r) == multiset(s) + multiset{x}
  {
    if s == [] then [x]
    else if x.aqi >= s[0].aqi then [x] + s
    else
      var rest := InsertByAqi(x, s[1..]);
      InsertBehindHead(x, s, rest);
      [s[0]] + rest
  }

  /** Putting the head in front of the tail with x inserted keeps the order
      and holds the stations of s and x. */
  lemma InsertBehindHead(x: Station, s: seq<Station>, rest: seq<Station>)
    requires ByAqiDescending(s) && |s| > 0 && x.aqi < s[0].aqi
    requires ByAqiDescending(rest) && multiset(rest) == multiset(s[1..]) + multiset{x}
    ensures ByAqiDescending([s[0]] + rest) && multiset([s[0]] + rest) == multiset(s) + multiset{x}
  {
    assert s == [s[0]] + s[1..];
    HeadAboveRest(x, s, rest);
    var r := [s[0]] + rest;
    forall i, j | 0 <= i < j < |r| ensures r[i].aqi >= r[j].aqi {
      assert r[j] == rest[j - 1];
      if i > 0 {
        assert r[i] == rest[i - 1];
      }
    }
  }

  /** Every station of a permutation of the tail plus a lower x is no higher
      than the head. */
  lemma HeadAboveRest(x: Station, s: seq<Station>, rest: seq<Station>)
    requires ByAqiDescending(s) && |s| > 0 && x.aqi < s[0].aqi
    requires multiset(rest) == multiset(s[1..]) + multiset{x}
    ensures forall k :: 0 <= k < |rest| ==> rest[k].aqi <= s[0].aqi
  {
    forall k | 0 <= k < |rest| ensures rest[k].aqi <= s[0].aqi {
      assert rest[k] in multiset(rest);
      if rest[k] != x {
        assert rest[k] in multiset(s[1..]);
        var j :| 0 <= j < |s[1..]| && s[1..][j] == rest[k];
        assert s[j + 1] == rest[k];
      }
    }
  }

  /** `[...stations].sort((a, b) => b.aqi - a.aqi)`. */
  function SortByAqi(s: seq<Station>): (r: seq<Station>)
    ensures ByAqiDescending(r) && multiset(r) == multiset(s) && |r| == |s|
  {
    if s == [] then []
    else
      assert s == [s[0]] + s[1..];
      InsertByAqi(s[0], SortByAqi(s[1..]))
  }

  function Min(a: nat, b: nat): nat { if a < b then a else b }

  /** `.slice(0, 10)` of the sorted copy: the stations whose history is fetched. */
  function TopStations(s: seq<Station>): seq<Station>
  {
    SortByAqi(s)[..Min(TopCount, |s|)]
  }

  /** The stations the slice leaves out. */
  function Unselected(s: seq<Station>): seq<Station>
  {
    SortByAqi(s)[Min(TopCount, |s|)..]
  }

  /** The selection takes min(10, n) of the stations, worst first, and every
      selected station's AQI is at least every unselected station's AQI;
      together the two parts are exactly the stations. */
  lemma TopStationsSelection(s: seq<Station>)
    ensures |TopStations(s)| == Min(TopCount, |s|) <= TopCount
    ensures ByAqiDescending(TopStations(s))
    ensures multiset(TopStations(s)) + multiset(Unselected(s)) == multiset(s)
    ensures forall i, j :: 0 <= i < |TopStations(s)| && 0 <= j < |Unselected(s)| ==>
      TopStations(s)[i].aqi >= Unselected(s)[j].aqi
  {
    var sorted := SortByAqi(s);
    var k := Min(TopCount, |s|);
    assert sorted == sorted[..k] + sorted[k..];
    forall i, j | 0 <= i < |TopStations(s)| && 0 <= j < |Unselected(s)|
      ensures TopStations(s)[i].aqi >= Unselected(s)[j].aqi
    {
      assert TopStations(s)[i] == sorted[i];
      assert Unselected(s)[j] == sorted[k + j];
    }
  }

  // ---------------------------------------------------------------------
  // Anomaly scores from history replies

  type HistoryReply = HttpReply<HistoryBody>

  /** The per-station callback: a score when the reply is OK, carries no
      `error` and holds a non-empty series; `null` otherwise, failures included. */
  function ScoreFromHistory(reply: HistoryReply): (r: Option<int>)
    ensures r.Some? ==> 0 <= r.value <= 100
    ensures r.Some? <==> (IsOk(reply) &&
      ((reply.body.SeriesList? && |reply.body.points| > 0) ||
       (reply.body.SeriesObject? && !Truthy(reply.body.error) && reply.body.series.Some? && |reply.body.series.value| > 0)))
    ensures r.Some? && reply.body.SeriesList? ==> r.value == ComputeAnomaly(reply.body.points)
    ensures r.Some? && reply.body.SeriesObject? ==> r.value == ComputeAnomaly(reply.body.series.value)
  {
    if !IsOk(reply) then None
    else
      match reply.body
      case SeriesList(ps) => if |ps| > 0 then Some(ComputeAnomaly(ps)) else None
      case SeriesObject(err, series) =>
        if Truthy(err) then None
        else
          var ps := series.GetOr([]);
          if |ps| > 0 then Some(ComputeAnomaly(ps)) else None
      case Unparsable => None
  }

  /** `{ id, anomaly }`, an element of `anomalyResults`. */
  datatype Scored = Scored(id: string, anomaly: int)

  /** `anomalyResults`, in the order of the selected stations. */
  function Results(top: seq<Station>, historyFor: string -> HistoryReply): (r: seq<Option<Scored>>)
    ensures |r| == |top|
  {
    if top == [] then []
    else
      var head := match ScoreFromHistory(historyFor(top[0].id))
        case Some(a) => Some(Scored(top[0].id, a))
        case None => None;
      [head] + Results(top[1..], historyFor)
  }

  /** `anomalyResults.find(r => r?.id === id)?.anomaly`. */
  function FindScore(results: seq<Option<Scored>>, id: string): Option<int>
  {
    if results == [] then None
    else if results[0].Some? && results[0].value.id == id then Some(results[0].value.anomaly)
    else FindScore(results[1..], id)
  }

  predicate HasId(top: seq<Station>, id: string)
  {
    exists k :: 0 <= k < |top| && top[k].id == id
  }

  /** A station id gets the score of its own history when it is among the
      selected ones, and no score otherwise. */
  lemma {:induction false} FindScoreOfResults(top: seq<Station>, historyFor: string -> HistoryReply, id: string)
    ensures FindScore(Results(top, historyFor), id) ==
      (if HasId(top, id) then ScoreFromHistory(historyFor(id)) else None)
  {
    if top != [] {
      FindScoreOfResults(top[1..], historyFor, id);
      if HasId(top, id) && top[0].id != id {
        var k :| 0 <= k < |top| && top[k].id == id;
        assert top[1..][k - 1].id == id;
      }
      if HasId(top[1..], id) {
        var k :| 0 <= k < |top[1..]| && top[1..][k].id == id;
        assert top[k + 1].id == id;
      }
    }
  }

  /** `stations.map(...)`: attach the found score to each station. */
  function Merge(stations: seq<Station>, results: seq<Option<Scored>>): (m: seq<Station>)
    ensures |m| == |stations|
  {
    seq(|stations|, i requires 0 <= i < |stations| =>
      match FindScore(results, stations[i].id)
      case Some(a) => stations[i].(anomaly := Some(a))
      case None => stations[i])
  }

  /** The merge keeps the length, the order and every field but `anomaly`; a
      station receives a score exactly when its id is among the selected
      stations and that id's history reply yields one. */
  lemma MergeScores(stations: seq<Station>, historyFor: string -> HistoryReply)
    ensures var m := Merge(stations, Results(TopStations(stations), historyFor));
      |m| == |stations| &&
      forall i :: 0 <= i < |stations| ==>
        m[i].(anomaly := stations[i].anomaly) == stations[i] &&
        m[i].anomaly ==
          (if HasId(TopStations(stations), stations[i].id) && ScoreFromHistory(historyFor(stations[i].id)).Some?
           then ScoreFromHistory(historyFor(stations[i].id))
           else stations[i].anomaly)
  {
    var top := TopStations(stations);
    forall i | 0 <= i < |stations| {
      FindScoreOfResults(top, historyFor, stations[i].id);
    }
  }

  /** The ids of a list of stations. */
  function Ids(s: seq<Station>): (ids: set<string>)
    ensures forall k :: 0 <= k < |s| ==> s[k].id in ids
  {
    if s == [] then {} else {s[0].id} + Ids(s[1..])
  }

  lemma {:induction false} IdsSize(s: seq<Station>)
    ensures |Ids(s)| <= |s|
    ensures forall id :: id in Ids(s) ==> HasId(s, id)
  {
    if s != [] {
      IdsSize(s[1..]);
      forall id | id in Ids(s) ensures HasId(s, id) {
        if id != s[0].id {
          var k :| 0 <= k < |s[1..]| && s[1..][k].id == id;
          assert s[k + 1].id == id;
        }
      }
    }
  }

  /** A station whose anomaly the merge changes has the id of a selected station. */
  lemma ScoredHasTopId(stations: seq<Station>, historyFor: string -> HistoryReply, i: nat)
    requires i < |stations|
    requires Merge(stations, Results(TopStations(stations), historyFor))[i].anomaly != stations[i].anomaly
    ensures stations[i].id in Ids(TopStations(stations))
  {
    var top := TopStations(stations);
    FindScoreOfResults(top, historyFor, stations[i].id);
  }

  /** At most ten distinct station ids receive a score in one refresh. */
  lemma AtMostTenScoredIds(stations: seq<Station>, historyFor: string -> HistoryReply)
    ensures var m := Merge(stations, Results(TopStations(stations), historyFor));
      var scored := set i | 0 <= i < |stations| && m[i].anomaly != stations[i].anomaly :: stations[i].id;
      |scored| <= TopCount
  {
    var top := TopStations(stations);
    var m := Merge(stations, Results(top, historyFor));
    var scored := set i | 0 <= i < |stations| && m[i].anomaly != stations[i].anomaly :: stations[i].id;
    forall id | id in scored ensures id in Ids(top) {
      var i :| 0 <= i < |stations| && m[i].anomaly != stations[i].anomaly && stations[i].id == id;
      ScoredHasTopId(stations, historyFor, i);
    }
    IdsSize(top);
    TopStationsSelection(stations);
    SubsetSize(scored, Ids(top));
  }

  lemma SubsetSize(a: set<string>, b: set<string>)
    requires a <= b
    ensures |a| <= |b|
  {
    assert b == a + (b - a);
  }

  // ---------------------------------------------------------------------
  // Refresh

  /** The parsed body of the stations reply. */
  datatype StationsBody =
    | StationList(items: seq<Station>)
    | StationsObject(error: Option<string>, stations: Option<seq<Station>>)

  /** The stations reply; `StationsThrew` covers a rejected fetch and a body that
      is not JSON. */
  datatype StationsReply = StationsThrew(message: string) | StationsNotOk(statusText: string) | StationsOk(body: StationsBody)

  datatype WeatherReply = WeatherThrew(message: string) | WeatherNotOk | WeatherOk(error: Option<string>, weather: Weather)

  datatype StationsResult = Fetched(list: seq<Station>) | FetchFailed(message: string)

  /** Lines 81-90: the station list, or the message of the error thrown. */
  function StationsOutcome(reply: StationsReply): (r: StationsResult)
    ensures reply.StationsNotOk? ==> r == FetchFailed("Failed to fetch stations: " + reply.statusText)
    ensures reply.StationsOk? && reply.body.StationsObject? && Truthy(reply.body.error) ==>
      r == FetchFailed(reply.body.error.value)
    ensures reply.StationsOk? && reply.body.StationList? ==> r == Fetched(reply.body.items)
    ensures reply.StationsOk? && reply.body.StationsObject? && !Truthy(reply.body.error) ==>
      r == Fetched(reply.body.stations.GetOr([]))
  {
    match reply
    case StationsThrew(msg) => FetchFailed(msg)
    case StationsNotOk(statusText) => FetchFailed("Failed to fetch stations: " + statusText)
    case StationsOk(StationList(items)) => Fetched(items)
    case StationsOk(StationsObject(err, list)) =>
      if Truthy(err) then FetchFailed(err.value) else Fetched(list.GetOr([]))
  }

  /** What the synchronous prefix of `refreshAll` read: `get()`'s city and centre. */
  datatype RefreshStart = RefreshStart(city: string, center: Center)

  /** Whether the promise of `refreshAll` resolves or rejects. */
  datatype RefreshOutcome = Done | Failed(message: string)

  datatype RefreshStep = RefreshStep(state: StoreState, outcome: RefreshOutcome)

  /** The final `set` of a successful refresh. */
  function Completed(s: StoreState, list: seq<Station>, historyFor: string -> HistoryReply, now: int): StoreState
  {
    var merged := Merge(list, Results(TopStations(list), historyFor));
    s.(stations := merged, lastUpdated := Some(now), loading := false)
  }

  /** The state and outcome after the awaited part of `refreshAll`, from the
      state s it resumes in. */
  function Refresh(s: StoreState, start: RefreshStart, stationsFor: string -> StationsReply,
                   weatherFor: Center -> WeatherReply, historyFor: string -> HistoryReply, now: int): RefreshStep
  {
    match StationsOutcome(stationsFor(start.city))
    case FetchFailed(msg) => RefreshStep(s.(error := Some(msg), loading := false), Failed(msg))
    case Fetched(list) => WithStations(s, start, list, weatherFor, historyFor, now)
  }

  /** The rest of a refresh once the station list has arrived: the list and its
      centre are stored, then the weather is awaited. */
  function WithStations(s: StoreState, start: RefreshStart, list: seq<Station>,
                        weatherFor: Center -> WeatherReply, historyFor: string -> HistoryReply, now: int): RefreshStep
  {
    var center := ComputeCenter(start.city, start.center, list);
    WithWeather(s.(stations := list, center := center), list, weatherFor(center), historyFor, now)
  }

  /** The rest of a refresh once the weather reply has arrived: a thrown error
      ends it; otherwise the weather is kept unless the reply carries an error,
      and the refresh completes. */
  function WithWeather(s: StoreState, list: seq<Station>, reply: WeatherReply,
                       historyFor: string -> HistoryReply, now: int): RefreshStep
  {
    match reply
    case WeatherThrew(msg) => RefreshStep(s.(error := Some(msg), loading := false), Failed(msg))
    case WeatherNotOk => RefreshStep(Completed(s, list, historyFor, now), Done)
    case WeatherOk(err, w) =>
      var s2 := if Truthy(err) then s else s.(weather := Some(w));
      RefreshStep(Completed(s2, list, historyFor, now), Done)
  }

  /** A refresh always ends with `loading` false. A failed station fetch sets
      `error` to its message and leaves the stations, the centre and every
      other field as they were; the refresh then rejects with that message. */
  lemma RefreshStationsFailure(s: StoreState, start: RefreshStart, stationsFor: string -> StationsReply,
                               weatherFor: Center -> WeatherReply, historyFor: string -> HistoryReply, now: int)
    ensures !Refresh(s, start, stationsFor, weatherFor, historyFor, now).state.loading
    ensures StationsOutcome(stationsFor(start.city)).FetchFailed? ==>
      var msg := StationsOutcome(stationsFor(start.city)).message;
      Refresh(s, start, stationsFor, weatherFor, historyFor, now) ==
        RefreshStep(s.(error := Some(msg), loading := false), Failed(msg))
  {
  }

  /** A refresh that resolves leaves the fetched stations (scores merged in, so
      the same length and, but for `anomaly`, the same stations) and the
      recomputed centre, and stamps `lastUpdated`. */
  lemma RefreshSuccess(s: StoreState, start: RefreshStart, stationsFor: string -> StationsReply,
                       weatherFor: Center -> WeatherReply, historyFor: string -> HistoryReply, now: int)
    requires Refresh(s, start, stationsFor, weatherFor, historyFor, now).outcome == Done
    ensures StationsOutcome(stationsFor(start.city)).Fetched?
    ensures var list := StationsOutcome(stationsFor(start.city)).list;
      var t := Refresh(s, start, stationsFor, weatherFor, historyFor, now).state;
      |t.stations| == |list| &&
      (forall i :: 0 <= i < |list| ==> t.stations[i].(anomaly := list[i].anomaly) == list[i]) &&
      t.center == ComputeCenter(start.city, start.center, list) &&
      t.lastUpdated == Some(now) && !t.loading && t.error == s.error
  {
    var list := StationsOutcome(stationsFor(start.city)).list;
    var center := ComputeCenter(start.city, start.center, list);
    WeatherDone(s.(stations := list, center := center), list, weatherFor(center), historyFor, now);
    MergeScores(list, historyFor);
  }

  /** A weather step that resolves stores the merged scores, keeps the centre
      and the error, stamps the time and clears `loading`. */
  lemma WeatherDone(s: StoreState, list: seq<Station>, reply: WeatherReply, historyFor: string -> HistoryReply, now: int)
    requires WithWeather(s, list, reply, historyFor, now).outcome == Done
    ensures var t := WithWeather(s, list, reply, historyFor, now).state;
      t.stations == Merge(list, Results(TopStations(list), historyFor)) &&
      t.center == s.center && t.lastUpdated == Some(now) && !t.loading && t.error == s.error
  {
  }

  // ---------------------------------------------------------------------
  // The store object

  class AppStore {
    var city: string
    var center: Center
    var radiusKm: Num
    var aqiThreshold: Option<Num>
    var showAnomaliesOnly: bool
    var stations: seq<Station>
    var selectedId: Option<string>
    var weather: Option<Weather>
    var lastUpdated: Option<int>
    var loading: bool
    var error: Option<string>

    function State(): StoreState
      reads this
    {
      StoreState(city, center, radiusKm, aqiThreshold, showAnomaliesOnly, stations,
                 selectedId, weather, lastUpdated, loading, error)
    }

    /** `create(...)`: the initial state, with the city from the environment. */
    constructor(env: Env)
      ensures State() == InitialState(DefaultCity(env))
    {
      city := DefaultCity(env);
      center := DefaultCenter;
      radiusKm := Int(DefaultRadiusKm);
      aqiThreshold := None;
      showAnomaliesOnly := false;
      stations := [];
      selectedId := None;
      weather := None;
      lastUpdated := None;
      loading := false;
      error := None;
    }

    method SetCity(c: string)
      modifies this
      ensures State() == old(State()).(city := c)
    {
      city := c;
    }

    method SetCenter(c: Center)
      modifies this
      ensures State() == old(State()).(center := c)
    {
      center := c;
    }

    method SetRadius(r: Num)
      modifies this
      ensures State() == old(State()).(radiusKm := r)
    {
      radiusKm := r;
    }

    method SetThreshold(t: Option<Num>)
      modifies this
      ensures State() == old(State()).(aqiThreshold := t)
    {
      aqiThreshold := t;
    }

    method ToggleAnomaliesOnly()
      modifies this
      ensures State() == Toggled(old(State()))
    {
      showAnomaliesOnly := !showAnomaliesOnly;
    }

    method SetStations(s: seq<Station>)
      modifies this
      ensures State() == old(State()).(stations := s)
    {
      stations := s;
    }

    method SetSelected(id: Option<string>)
      modifies this
      ensures State() == old(State()).(selectedId := id)
    {
      selectedId := id;
    }

    method SetWeather(w: Weather)
      modifies this
      ensures State() == old(State()).(weather := Some(w))
    {
      weather := Some(w);
    }

    method SetError(msg: Option<string>)
      modifies this
      ensures State() == old(State()).(error := msg)
    {
      error := msg;
    }

    /** The synchronous prefix of `refreshAll`: read city and centre, then
        `set({ loading: true, error: undefined })`. */
    method BeginRefresh() returns (start: RefreshStart)
      modifies this
      ensures start == RefreshStart(old(city), old(center))
      ensures State() == old(State()).(loading := true, error := None)
    {
      start := RefreshStart(city, center);
      loading := true;
      error := None;
    }

    /** The rest of `refreshAll`, as the sequence of `set` calls it performs. */
    method FinishRefresh(start: RefreshStart, stationsFor: string -> StationsReply,
                         weatherFor: Center -> WeatherReply, historyFor: string -> HistoryReply, now: int)
      returns (outcome: RefreshOutcome)
      modifies this
      ensures RefreshStep(State(), outcome) == Refresh(old(State()), start, stationsFor, weatherFor, historyFor, now)
    {
      var fetched := StationsOutcome(stationsFor(start.city));
      if fetched.FetchFailed? {
        error := Some(fetched.message);
        loading := false;
        return Failed(fetched.message);
      }
      outcome := StoreStations(start, fetched.list, weatherFor, historyFor, now);
    }

    /** The `set` calls of `refreshAll` after the station list has arrived. */
    method StoreStations(start: RefreshStart, list: seq<Station>, weatherFor: Center -> WeatherReply,
                         historyFor: string -> HistoryReply, now: int)
      returns (outcome: RefreshOutcome)
      modifies this
      ensures RefreshStep(State(), outcome) == WithStations(old(State()), start, list, weatherFor, historyFor, now)
    {
      var newCenter := ComputeCenter(start.city, start.center, list);
      stations := list;
      center := newCenter;
      outcome := StoreWeather(list, weatherFor(newCenter), historyFor, now);
    }

    /** The `set` calls of `refreshAll` after the weather reply has arrived. */
    method StoreWeather(list: seq<Station>, reply: WeatherReply, historyFor: string -> HistoryReply, now: int)
      returns (outcome: RefreshOutcome)
      modifies this
      ensures RefreshStep(State(), outcome) == WithWeather(old(State()), list, reply, historyFor, now)
    {
      if reply.WeatherThrew? {
        error := Some(reply.message);
        loading := false;
        return Failed(reply.message);
      }
      if reply.WeatherOk? && !Truthy(reply.error) {
        weather := Some(reply.weather);
      }
      Complete(list, historyFor, now);
      outcome := Done;
    }

    /** The last `set` of a successful refresh: the scores of the top stations
        merged into the list, the time stamp, and `loading` cleared. */
    method Complete(list: seq<Station>, historyFor: string -> HistoryReply, now: int)
      modifies this
      ensures State() == Completed(old(State()), list, historyFor, now)
    {
      var top := TopStations(list);
      var results := Results(top, historyFor);
      stations := Merge(list, results);
      lastUpdated := Some(now);
      loading := false;
    }

    /** `refreshAll` run to completion with no other store update in between. */
    method RefreshAll(stationsFor: string -> StationsReply, weatherFor: Center -> WeatherReply,
                      historyFor: string -> HistoryReply, now: int)
      returns (outcome: RefreshOutcome)
      modifies this
      ensures RefreshStep(State(), outcome) ==
        Refresh(old(State()).(loading := true, error := None), RefreshStart(old(city), old(center)),
                stationsFor, weatherFor, historyFor, now)
    {
      var start := BeginRefresh();
      outcome := FinishRefresh(start, stationsFor, weatherFor, historyFor, now);
    }
  }
}
