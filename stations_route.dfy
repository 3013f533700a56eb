/** The station list handler of app/api/openaq/stations/route.ts: choose the
    city, ask OpenAQ for its PM2.5 locations, read each location's latest
    readings, and turn every location that has a PM2.5 reading into a
    `Station`. The OpenAQ requests are function parameters. */
module StationsRoute {
  import opened Common
  import opened Js
  import opened Aqi
  import opened Types
  import opened Dashboard

  // ---------------------------------------------------------------------
  // The city and the locations query

  /** The two environment variables the handler reads. */
  datatype RouteEnv = RouteEnv(defaultCity: Option<string>, publicDefaultCity: Option<string>)

  /** `searchParams.get("city") || DEFAULT_CITY || NEXT_PUBLIC_DEFAULT_CITY ||
      "San Francisco"`: the first non-empty one, so never empty. */
  function RouteCity(params: Params, env: RouteEnv): (city: string)
    ensures city != ""
    ensures Truthy(Get(params, "city")) ==> city == Get(params, "city").value
    ensures !Truthy(Get(params, "city")) && Truthy(env.defaultCity) ==> city == env.defaultCity.value
    ensures !Truthy(Get(params, "city")) && !Truthy(env.defaultCity) && Truthy(env.publicDefaultCity) ==>
      city == env.publicDefaultCity.value
    ensures !Truthy(Get(params, "city")) && !Truthy(env.defaultCity) && !Truthy(env.publicDefaultCity) ==>
      city == "San Francisco"
  {
    Or(Get(params, "city"), Or(env.defaultCity, Or(env.publicDefaultCity, "San Francisco")))
  }

  /** The 19 names whose presence marks a US city. */
  const UsCityNames: seq<string> := [
    "san francisco", "san jose", "los angeles", "new york", "chicago", "boston",
    "seattle", "portland", "miami", "houston", "phoenix", "philadelphia",
    "dallas", "austin", "denver", "atlanta", "detroit", "minneapolis", "washington"]

  /** `isUSCity`: the lower-cased city contains one of the names. */
  predicate IsUSCity(city: string)
  {
    exists i :: 0 <= i < |UsCityNames| && Contains(ToLower(city), UsCityNames[i])
  }

  lemma LowerCharIdempotent(c: char)
    ensures LowerChar(LowerChar(c)) == LowerChar(c)
  {
  }

  /** Lower-casing twice is lower-casing once. */
  lemma ToLowerIdempotent(s: string)
    ensures ToLower(ToLower(s)) == ToLower(s)
  {
    forall k | 0 <= k < |s| ensures ToLower(ToLower(s))[k] == ToLower(s)[k] {
      LowerCharIdempotent(s[k]);
    }
  }

  /** The test ignores the case of the city. */
  lemma IsUSCityIgnoresCase(city: string)
    ensures IsUSCity(city) <==> IsUSCity(ToLower(city))
  {
    ToLowerIdempotent(city);
  }

  /** The query string of the locations request: locality, parameter id 2,
      limit 50, and `iso=US` when `usOnly`. */
  datatype LocationsQuery = LocationsQuery(locality: string, parametersId: int, limit: int, usOnly: bool)

  function QueryFor(city: string): (q: LocationsQuery)
    ensures q.locality == city && q.parametersId == 2 && q.limit == 50
    ensures q.usOnly <==> exists i :: 0 <= i < |UsCityNames| && Contains(ToLower(city), UsCityNames[i])
  {
    LocationsQuery(city, 2, 50, IsUSCity(city))
  }

  // ---------------------------------------------------------------------
  // Upstream records (after schema validation)

  datatype Sensor = Sensor(id: int, parameterId: int, parameterName: string)

  /** A location; ids are integers. */
  datatype Location = Location(
    id: int, name: Option<string>, locality: Option<string>,
    latitude: Option<real>, longitude: Option<real>, sensors: seq<Sensor>)

  datatype LatestReading = LatestReading(value: real, sensorsId: int)

  predicate IsPm25Sensor(s: Sensor)
  {
    s.parameterId == 2 || s.parameterName == "pm25"
  }

  /** `sensors.find(s => s.parameter.id === 2 || s.parameter.name === "pm25")`. */
  function FindPm25Sensor(sensors: seq<Sensor>): (r: Option<Sensor>)
    ensures r.Some? ==>
      exists i :: 0 <= i < |sensors| && sensors[i] == r.value && IsPm25Sensor(r.value) &&
        forall j :: 0 <= j < i ==> !IsPm25Sensor(sensors[j])
    ensures r.None? <==> forall i :: 0 <= i < |sensors| ==> !IsPm25Sensor(sensors[i])
  {
    if sensors == [] then None
    else if IsPm25Sensor(sensors[0]) then Some(sensors[0])
    else
      var r := FindPm25Sensor(sensors[1..]);
      assert forall i :: 1 <= i < |sensors| ==> sensors[i] == sensors[1..][i - 1];
      r
  }

  /** `results.find(m => m.sensorsId === sensorId)`. */
  function FindReading(results: seq<LatestReading>, sensorId: int): (r: Option<LatestReading>)
    ensures r.Some? ==>
      r.value.sensorsId == sensorId &&
      exists i :: 0 <= i < |results| && results[i] == r.value &&
        forall j :: 0 <= j < i ==> results[j].sensorsId != sensorId
    ensures r.None? <==> forall i :: 0 <= i < |results| ==> results[i].sensorsId != sensorId
  {
    if results == [] then None
    else if results[0].sensorsId == sensorId then Some(results[0])
    else
      var r := FindReading(results[1..], sensorId);
      assert forall i :: 1 <= i < |results| ==> results[i] == results[1..][i - 1];
      r
  }

  // ---------------------------------------------------------------------
  // One location

  /** `name ?? locality ?? "Location <id>"`: `??` skips only absent values,
      so an empty name is kept. */
  function StationName(loc: Location): string
  {
    loc.name.GetOr(loc.locality.GetOr("Location " + IntToString(loc.id)))
  }

  /** The station built from a location and its PM2.5 concentration. */
  function MakeStation(loc: Location, pm25: real): Station
    requires loc.latitude.Some? && loc.longitude.Some?
  {
    var aqi := Pm25ToAqi(pm25);
    Station(IntToString(loc.id), StationName(loc), loc.latitude.value, loc.longitude.value,
            aqi.value, aqi.band, Pollutants(Some(pm25), None, None, None, None, None), None)
  }

  /** What the per-location callback resolves to: `null`, a station, or a
      rejection (its latest request or parse threw). */
  datatype LocationOutcome = Dropped | Kept(station: Station) | Failed

  /** The per-location callback, given the reply its latest request gets. The
      latest request is made only for a location with both coordinates and a
      PM2.5 sensor. */
  function Transform(loc: Location, latest: Upstream<seq<LatestReading>>): LocationOutcome
  {
    if loc.latitude.None? || loc.longitude.None? then Dropped
    else
      match FindPm25Sensor(loc.sensors)
      case None => Dropped
      case Some(sensor) =>
        match latest
        case Threw => Failed
        case NotOk(_, _) => Dropped
        case Parsed(results) =>
          match FindReading(results, sensor.id)
          case None => Dropped
          case Some(m) => Kept(MakeStation(loc, m.value))
  }

  /** A location is kept exactly when it has both coordinates, a PM2.5 sensor,
      an OK latest reply and a reading of that sensor; it is dropped exactly
      when one of those is missing and nothing threw. */
  lemma TransformCases(loc: Location, latest: Upstream<seq<LatestReading>>)
    ensures Transform(loc, latest).Kept? <==>
      loc.latitude.Some? && loc.longitude.Some? && FindPm25Sensor(loc.sensors).Some? &&
      latest.Parsed? && FindReading(latest.body, FindPm25Sensor(loc.sensors).value.id).Some?
    ensures Transform(loc, latest).Failed? <==>
      loc.latitude.Some? && loc.longitude.Some? && FindPm25Sensor(loc.sensors).Some? && latest.Threw?
    ensures Transform(loc, latest).Dropped? <==>
      loc.latitude.None? || loc.longitude.None? ||
      (forall i :: 0 <= i < |loc.sensors| ==> !IsPm25Sensor(loc.sensors[i])) ||
      latest.NotOk? ||
      (latest.Parsed? && forall i :: 0 <= i < |latest.body| ==>
        latest.body[i].sensorsId != FindPm25Sensor(loc.sensors).value.id)
  {
  }

  /** A kept station: its id is the decimal form of the location id (and reads
      back as it), its name follows the fallback chain, its AQI and band are one
      conversion of the concentration of the first reading of the first PM2.5
      sensor, PM2.5 is its only pollutant and it has no anomaly score. */
  lemma KeptStation(loc: Location, latest: Upstream<seq<LatestReading>>)
    requires Transform(loc, latest).Kept?
    ensures var st := Transform(loc, latest).station;
      var sensor := FindPm25Sensor(loc.sensors).value;
      var m := FindReading(latest.body, sensor.id).value;
      ParseInt(st.id) == Int(loc.id) &&
      st.name == (if loc.name.Some? then loc.name.value
                  else if loc.locality.Some? then loc.locality.value
                  else "Location " + IntToString(loc.id)) &&
      st.lat == loc.latitude.value && st.lon == loc.longitude.value &&
      m.sensorsId == sensor.id && IsPm25Sensor(sensor) &&
      AqiResult(st.aqi, st.band) == Pm25ToAqi(m.value) &&
      st.pollutants == Pollutants(Some(m.value), None, None, None, None, None) &&
      st.anomaly.None?
  {
    ParseIntToString(loc.id);
  }

  // ---------------------------------------------------------------------
  // All locations

  /** The callbacks' outcomes, location by location. */
  function Outcomes(locs: seq<Location>, latestFor: int -> Upstream<seq<LatestReading>>): (r: seq<LocationOutcome>)
    ensures |r| == |locs| && forall i :: 0 <= i < |locs| ==> r[i] == Transform(locs[i], latestFor(locs[i].id))
  {
    seq(|locs|, i requires 0 <= i < |locs| => Transform(locs[i], latestFor(locs[i].id)))
  }

  /** `Promise.all` rejects when one callback rejects. */
  predicate AnyFailed(outs: seq<LocationOutcome>)
  {
    exists i :: 0 <= i < |outs| && outs[i].Failed?
  }

  function StationsOf(outs: seq<LocationOutcome>): (r: seq<Station>)
    requires forall i :: 0 <= i < |outs| ==> outs[i].Kept?
    ensures |r| == |outs| && forall i :: 0 <= i < |outs| ==> r[i] == outs[i].station
  {
    seq(|outs|, i requires 0 <= i < |outs| => outs[i].station)
  }

  /** `stationsArr.filter(s => s !== null)`. */
  function KeptStations(outs: seq<LocationOutcome>): seq<Station>
  {
    StationsOf(Filter(outs, (o: LocationOutcome) => o.Kept?))
  }

  /** The kept stations are the stations of the kept outcomes, in their order,
      no more of them than there are locations. */
  lemma KeptStationsMeaning(outs: seq<LocationOutcome>)
    ensures |KeptStations(outs)| <= |outs|
    ensures forall st :: st in KeptStations(outs) <==> Kept(st) in outs
    ensures IsSubsequence(Filter(outs, (o: LocationOutcome) => o.Kept?), outs)
  {
    var isKept := (o: LocationOutcome) => o.Kept?;
    var f := Filter(outs, isKept);
    FilterIsSubsequence(outs, isKept);
    forall st ensures st in KeptStations(outs) <==> Kept(st) in outs {
      if st in KeptStations(outs) {
        var k :| 0 <= k < |f| && KeptStations(outs)[k] == st;
        assert f[k] == Kept(st);
        assert f[k] in multiset(outs);
      }
      if Kept(st) in outs {
        var i :| 0 <= i < |outs| && outs[i] == Kept(st);
        FilterComplete(outs, isKept, i);
        var k :| 0 <= k < |f| && f[k] == Kept(st);
        assert KeptStations(outs)[k] == st;
      }
    }
  }

  // ---------------------------------------------------------------------
  // The handler

  /** The handler's JSON answer: the station array (200), the locations
      failure with the upstream status and text (500), or the catch-all
      "Failed to fetch stations" (500). */
  datatype StationsResponse =
    | StationList(stations: seq<Station>)
    | LocationsFailed(upstreamStatus: int, upstreamBody: string)
    | StationsFailed

  function StatusOf(r: StationsResponse): int
  {
    if r.StationList? then 200 else 500
  }

  /** `GET`: the early returns of the handler, with the locations request and
      the per-location latest requests answered by the two parameters. */
  method HandleStations(params: Params, env: RouteEnv,
                        locationsFor: LocationsQuery -> Upstream<seq<Location>>,
                        latestFor: int -> Upstream<seq<LatestReading>>)
    returns (resp: StationsResponse)
    ensures var reply := locationsFor(QueryFor(RouteCity(params, env)));
      (reply.Threw? ==> resp == StationsFailed) &&
      (reply.NotOk? ==> resp == LocationsFailed(reply.status, reply.text)) &&
      (reply.Parsed? && AnyFailed(Outcomes(reply.body, latestFor)) ==> resp == StationsFailed) &&
      (reply.Parsed? && !AnyFailed(Outcomes(reply.body, latestFor)) ==>
        resp == StationList(KeptStations(Outcomes(reply.body, latestFor))))
    ensures StatusOf(resp) == 200 <==> resp.StationList?
  {
    var city := RouteCity(params, env);
    var query := QueryFor(city);
    var locRes := locationsFor(query);
    if locRes.Threw? {
      return StationsFailed;
    }
    if locRes.NotOk? {
      return LocationsFailed(locRes.status, locRes.text);
    }
    var outcomes := Outcomes(locRes.body, latestFor);
    if AnyFailed(outcomes) {
      return StationsFailed;
    }
    return StationList(KeptStations(outcomes));
  }

  /** A successful answer has at most one station per location, and each of
      them is built from one of the locations. */
  lemma StationListFromLocations(locs: seq<Location>, latestFor: int -> Upstream<seq<LatestReading>>)
    ensures |KeptStations(Outcomes(locs, latestFor))| <= |locs|
    ensures forall st :: st in KeptStations(Outcomes(locs, latestFor)) ==>
      exists i :: 0 <= i < |locs| && Transform(locs[i], latestFor(locs[i].id)) == Kept(st)
  {
    var outs := Outcomes(locs, latestFor);
    KeptStationsMeaning(outs);
    forall st | st in KeptStations(outs)
      ensures exists i :: 0 <= i < |locs| && Transform(locs[i], latestFor(locs[i].id)) == Kept(st)
    {
      var i :| 0 <= i < |outs| && outs[i] == Kept(st);
    }
  }
}
