/** The history handler of app/api/openaq/history/route.ts: validate
    `stationId`, look the location up, choose its PM2.5 sensor, read the last
    seven days of measurements and answer them as a time-sorted series. The
    OpenAQ requests and the clock are parameters. */
module HistoryRoute {
  import opened Common
  import opened Js
  import opened Types
  import opened Store
  import opened Dashboard
  import opened Details
  import opened StationsRoute

  // ---------------------------------------------------------------------
  // The sensor

  /** A location record of the lookup reply; only its sensors are read. */
  datatype LocationRecord = LocationRecord(id: int, sensors: seq<Sensor>)

  /** `parsedLoc.results[0]?.sensors ?? []`. */
  function FirstSensors(results: seq<LocationRecord>): seq<Sensor>
  {
    if results == [] then [] else results[0].sensors
  }

  /** This handler compares the lower-cased parameter name. */
  predicate IsHistorySensor(s: Sensor)
  {
    s.parameterId == 2 || ToLower(s.parameterName) == "pm25"
  }

  /** `sensors.find(s => s.parameter.id === 2 || s.parameter.name.toLowerCase() === "pm25")`. */
  function FindHistorySensor(sensors: seq<Sensor>): (r: Option<Sensor>)
    ensures r.Some? ==>
      exists i :: 0 <= i < |sensors| && sensors[i] == r.value && IsHistorySensor(r.value) &&
        forall j :: 0 <= j < i ==> !IsHistorySensor(sensors[j])
    ensures r.None? <==> forall i :: 0 <= i < |sensors| ==> !IsHistorySensor(sensors[i])
  {
    if sensors == [] then None
    else if IsHistorySensor(sensors[0]) then Some(sensors[0])
    else
      var r := FindHistorySensor(sensors[1..]);
      assert forall i :: 1 <= i < |sensors| ==> sensors[i] == sensors[1..][i - 1];
      r
  }

  /** Every sensor the stations handler takes for PM2.5 this handler takes too,
      so a sensor list in which the stations handler finds a PM2.5 sensor also
      holds a history sensor. */
  lemma HistorySensorCoversStationSensor(sensors: seq<Sensor>)
    ensures forall s :: IsPm25Sensor(s) ==> IsHistorySensor(s)
    ensures FindPm25Sensor(sensors).Some? ==> FindHistorySensor(sensors).Some?
  {
    forall s | IsPm25Sensor(s) ensures IsHistorySensor(s) {
      if s.parameterId != 2 {
        assert s.parameterName == "pm25";
        assert ToLower(s.parameterName) == "pm25";
      }
    }
  }

  // ---------------------------------------------------------------------
  // The series

  /** Seven days, in milliseconds. */
  const Week: int := 7 * 24 * 60 * 60 * 1000

  /** The measurements request: the sensor, the start of the window, the limit. */
  datatype MeasurementsQuery = MeasurementsQuery(sensorId: int, from: int, limit: int)

  function MeasurementsQueryFor(sensorId: int, now: int): (q: MeasurementsQuery)
    ensures q.sensorId == sensorId && now - q.from == 604800000 && q.limit == 1000
  {
    MeasurementsQuery(sensorId, now - Week, 1000)
  }

  /** A measurement: its value and the instant `datetimeFrom.utc` stands for. */
  datatype Measurement = Measurement(value: real, utc: int)

  function ToPoints(ms: seq<Measurement>): (r: seq<SeriesPoint>)
    ensures |r| == |ms| && forall i :: 0 <= i < |ms| ==> r[i] == SeriesPoint(ms[i].utc, Finite(ms[i].value))
  {
    seq(|ms|, i requires 0 <= i < |ms| => SeriesPoint(ms[i].utc, Finite(ms[i].value)))
  }

  predicate ByTime(s: seq<SeriesPoint>)
  {
    forall i, j :: 0 <= i < j < |s| ==> s[i].time <= s[j].time
  }

  /** Inserts p before the first point that is not earlier. */
  function InsertByTime(p: SeriesPoint, s: seq<SeriesPoint>): (r: seq<SeriesPoint>)
    requires ByTime(s)
    ensures ByTime(r) && multiset(r) == multiset(s) + multiset{p}
  {
    if s == [] then [p]
    else if p.time <= s[0].time then [p] + s
    else
      var rest := InsertByTime(p, s[1..]);
      InsertBehindHead(p, s, rest);
      [s[0]] + rest
  }

  /** Putting the head in front of the tail with p inserted keeps the order
      and holds the points of s and p. */
  lemma InsertBehindHead(p: SeriesPoint, s: seq<SeriesPoint>, rest: seq<SeriesPoint>)
    requires ByTime(s) && |s| > 0 && p.time > s[0].time
    requires ByTime(rest) && multiset(rest) == multiset(s[1..]) + multiset{p}
    ensures ByTime([s[0]] + rest) && multiset([s[0]] + rest) == multiset(s) + multiset{p}
  {
    assert s == [s[0]] + s[1..];
    HeadBeforeRest(p, s, rest);
    var r := [s[0]] + rest;
    forall i, j | 0 <= i < j < |r| ensures r[i].time <= r[j].time {
      assert r[j] == rest[j - 1];
      if i > 0 {
        assert r[i] == rest[i - 1];
      }
    }
  }

  /** Every point of a permutation of the tail plus a later p is no earlier
      than the head. */
  lemma HeadBeforeRest(p: SeriesPoint, s: seq<SeriesPoint>, rest: seq<SeriesPoint>)
    requires ByTime(s) && |s| > 0 && p.time > s[0].time
    requires multiset(rest) == multiset(s[1..]) + multiset{p}
    ensures forall k :: 0 <= k < |rest| ==> s[0].time <= rest[k].time
  {
    forall k | 0 <= k < |rest| ensures s[0].time <= rest[k].time {
      assert rest[k] in multiset(rest);
      if rest[k] != p {
        assert rest[k] in multiset(s[1..]);
        var j :| 0 <= j < |s[1..]| && s[1..][j] == rest[k];
        assert s[j + 1] == rest[k];
      }
    }
  }

  /** `.sort((a, b) => a.time - b.time)`: ascending by time, the same points. */
  function SortByTime(s: seq<SeriesPoint>): (r: seq<SeriesPoint>)
    ensures ByTime(r) && multiset(r) == multiset(s) && |r| == |s|
  {
    if s == [] then []
    else
      assert s == [s[0]] + s[1..];
      InsertByTime(s[0], SortByTime(s[1..]))
  }

  /** The answered series has one point per measurement, with its instant and
      value, in ascending time order. */
  lemma SeriesOfMeasurements(ms: seq<Measurement>)
    ensures var r := SortByTime(ToPoints(ms));
      |r| == |ms| && ByTime(r) &&
      forall m :: m in ms <==> SeriesPoint(m.utc, Finite(m.value)) in r
  {
    var ps := ToPoints(ms);
    var r := SortByTime(ps);
    forall m ensures m in ms <==> SeriesPoint(m.utc, Finite(m.value)) in r {
      var p := SeriesPoint(m.utc, Finite(m.value));
      assert p in r <==> p in multiset(ps);
      if m in ms {
        var i :| 0 <= i < |ms| && ms[i] == m;
        assert ps[i] == p;
      }
      if p in ps {
        var i :| 0 <= i < |ps| && ps[i] == p;
        assert ms[i] == m;
      }
    }
  }

  // ---------------------------------------------------------------------
  // The handler

  /** The handler's JSON answer. `parameter` is read from the query but chooses
      nothing, so it is not an input here. */
  datatype HistoryResponse =
    | Series(points: seq<SeriesPoint>)                                            // 200
    | BadRequest(message: string)                                                 // 400
    | NotFound(message: string)                                                   // 404
    | UpstreamError(message: string, upstreamStatus: int, upstreamBody: Option<string>) // 500
    | HistoryFailed                                                               // 500, "Failed to fetch history"

  function StatusOf(r: HistoryResponse): int
  {
    match r
    case Series(_) => 200
    case BadRequest(_) => 400
    case NotFound(_) => 404
    case UpstreamError(_, _, _) => 500
    case HistoryFailed => 500
  }

  /** `GET`, with the early returns of the handler. */
  method HandleHistory(params: Params, now: int,
                       locationFor: JsNumber -> Upstream<seq<LocationRecord>>,
                       measurementsFor: MeasurementsQuery -> Upstream<seq<Measurement>>)
    returns (resp: HistoryResponse)
    ensures !Truthy(Get(params, "stationId")) ==> resp == BadRequest("stationId required")
    ensures Truthy(Get(params, "stationId")) && ToNumber(Get(params, "stationId").value).NumNaN? ==>
      resp == BadRequest("stationId must be numeric")
    ensures Truthy(Get(params, "stationId")) && !ToNumber(Get(params, "stationId").value).NumNaN? ==>
      var loc := locationFor(ToNumber(Get(params, "stationId").value));
      (loc.Threw? ==> resp == HistoryFailed) &&
      (loc.NotOk? && loc.status == 404 ==> resp == NotFound("Location not found")) &&
      (loc.NotOk? && loc.status != 404 ==> resp == UpstreamError("Location lookup failed", loc.status, None)) &&
      (loc.Parsed? && FindHistorySensor(FirstSensors(loc.body)).None? ==>
        resp == NotFound("No PM2.5 sensor for this station")) &&
      (loc.Parsed? && FindHistorySensor(FirstSensors(loc.body)).Some? ==>
        var meas := measurementsFor(MeasurementsQueryFor(FindHistorySensor(FirstSensors(loc.body)).value.id, now));
        (meas.Threw? ==> resp == HistoryFailed) &&
        (meas.NotOk? ==> resp == UpstreamError("Measurements fetch failed", meas.status, Some(meas.text))) &&
        (meas.Parsed? ==> resp == Series(SortByTime(ToPoints(meas.body)))))
  {
    var stationId := Get(params, "stationId");
    if !Truthy(stationId) {
      return BadRequest("stationId required");
    }
    var locId := ToNumber(stationId.value);
    if locId.NumNaN? {
      return BadRequest("stationId must be numeric");
    }
    var locRes := locationFor(locId);
    if locRes.Threw? {
      return HistoryFailed;
    }
    if locRes.NotOk? {
      if locRes.status == 404 {
        return NotFound("Location not found");
      }
      return UpstreamError("Location lookup failed", locRes.status, None);
    }
    var sensor := FindHistorySensor(FirstSensors(locRes.body));
    if sensor.None? {
      return NotFound("No PM2.5 sensor for this station");
    }
    var measRes := measurementsFor(MeasurementsQueryFor(sensor.value.id, now));
    if measRes.Threw? {
      return HistoryFailed;
    }
    if measRes.NotOk? {
      return UpstreamError("Measurements fetch failed", measRes.status, Some(measRes.text));
    }
    return Series(SortByTime(ToPoints(measRes.body)));
  }

  /** A station id the stations handler produces, `String(id)`, passes both
      checks and asks for that same location. */
  lemma StationIdAccepted(locationId: int)
    ensures Truthy(Some(IntToString(locationId)))
    ensures ToNumber(IntToString(locationId)) == NumFinite(locationId as real)
  {
    ToNumberIntToString(locationId);
    IntToStringIsPlain(locationId);
  }

  /** A blank but non-empty `stationId` is truthy and converts to 0, so it is
      not rejected; it asks for location 0. */
  lemma BlankStationIdReadsAsZero(id: string)
    requires id != [] && forall i :: 0 <= i < |id| ==> IsSpace(id[i])
    ensures Truthy(Some(id)) && ToNumber(id) == NumFinite(0.0)
  {
    ToNumberBlank(id);
  }

  // ---------------------------------------------------------------------
  // The answer as the dashboard reads it

  /** The answer as the HTTP reply its callers receive: the series as a JSON
      array, every failure as an object with an `error` message. */
  function AsReply(r: HistoryResponse): (reply: HttpReply<HistoryBody>)
    ensures reply.Response? && reply.status == StatusOf(r)
    ensures IsOk(reply) <==> r.Series?
  {
    match r
    case Series(ps) => Response(200, SeriesList(ps))
    case BadRequest(msg) => Response(400, SeriesObject(Some(msg), None))
    case NotFound(msg) => Response(404, SeriesObject(Some(msg), None))
    case UpstreamError(msg, _, _) => Response(500, SeriesObject(Some(msg), None))
    case HistoryFailed => Response(500, SeriesObject(Some("Failed to fetch history"), None))
  }

  /** The details panel charts exactly the series of a successful answer and
      nothing for any failure. */
  lemma PanelShowsSeries(r: HistoryResponse)
    ensures ClassifyHistory(AsReply(r)) == (if r.Series? then r.points else [])
  {
  }

  /** The store scores a station exactly when its history answer is a
      non-empty series. */
  lemma StoreScoresSeries(r: HistoryResponse)
    ensures ScoreFromHistory(AsReply(r)).Some? <==> r.Series? && |r.points| > 0
  {
  }
}
