/** The records of types.ts shared by the store, the dashboard and the two
    route handlers. Times are integer instants (milliseconds since the epoch)
    instead of ISO strings; a reading that JavaScript would hold as NaN or
    +/-Infinity is a variant of its own. */
module Types {
  import opened Common
  import opened Aqi

  /** `Pollutants`: every concentration is optional. */
  datatype Pollutants = Pollutants(
    pm25: Option<real>, pm10: Option<real>, o3: Option<real>,
    no2: Option<real>, so2: Option<real>, co: Option<real>)

  /** `Station`. `anomaly` is absent until a refresh scores the station. */
  datatype Station = Station(
    id: string, name: string, lat: real, lon: real,
    aqi: int, band: Band, pollutants: Pollutants, anomaly: Option<int>)

  /** The numeric value of a series point as JavaScript holds it. */
  datatype Reading = Finite(v: real) | NaN | PlusInfinity | MinusInfinity

  /** `SeriesPoint`. */
  datatype SeriesPoint = SeriesPoint(time: int, value: Reading)

  /** The reply to an HTTP request: the request was rejected (network failure),
      or a status code with the parsed body. */
  datatype HttpReply<B> = Rejected | Response(status: int, body: B)

  /** `res.ok`: a status in the 200-299 range. */
  predicate IsOk<B>(r: HttpReply<B>)
  {
    r.Response? && 200 <= r.status <= 299
  }

  /** What a route handler gets back from one OpenAQ request: the request or
      the parsing of its body threw (network failure, invalid JSON, or a body
      the schema rejects), the status was not in 200-299 (with the body text),
      or the body parsed. */
  datatype Upstream<B> = Threw | NotOk(status: int, text: string) | Parsed(body: B)

  /** The JSON body of a history reply as its readers see it: not JSON at
      all, an array of points, or an object with optional `error` and `series`
      fields. */
  datatype HistoryBody =
    | Unparsable
    | SeriesList(points: seq<SeriesPoint>)
    | SeriesObject(error: Option<string>, series: Option<seq<SeriesPoint>>)

  /** The map centre `[lon, lat]`. */
  datatype Center = Center(lon: real, lat: real)

  /** `{ tempC, windKph }`. */
  datatype Weather = Weather(tempC: real, windKph: real)
}
