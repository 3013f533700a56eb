# EnviroWatch core, modelled in Dafny

EnviroWatch is a Next.js dashboard for air quality. It has several parts:

- Two API routes (stations and history) that reshape OpenAQ data into station records and PM2.5 time series.
- A zustand store that loads stations, re-centres the map, scores the ten worst stations for anomalies and keeps the view settings.
- A page that filters stations and sums up the result.
- A details panel that copies a shareable link and shows a station's history.
- A chat panel that turns typed commands into store changes.

This project models that core and proves what each part promises.

The modules follow the source files:

| module | file | source |
|---|---|---|
| `Common` | common.dfy | `Array.prototype.filter`, sums and means over reals, `Option` |
| `Js` | js.dfy | the JavaScript string and number semantics the code relies on: `trim`, ASCII `toLowerCase`, `includes`, the capturing regexes `lit(cls+)`, `parseInt(_, 10)`, `String(n)`, `Number(s)` |
| `Types` | types.dfy | `types.ts`, plus the shapes of HTTP replies and upstream outcomes |
| `Aqi` | aqi.dfy | `lib/aqi.ts` |
| `Anomaly` | anomaly.dfy | `lib/anomaly.ts` |
| `Store` | store.dfy | `store/useAppStore.ts`, with class `AppStore` |
| `Dashboard` | dashboard.dfy | `app/page.tsx` |
| `Details` | details.dfy | `components/DetailsPanel.tsx` |
| `Chat` | chat.dfy | `components/ChatPanel.tsx`, with class `ChatPanel` |
| `TopStats` | topstats.dfy | `components/TopStats.tsx` |
| `StationsRoute` | stations_route.dfy | `app/api/openaq/stations/route.ts` |
| `HistoryRoute` | history_route.dfy | `app/api/openaq/history/route.ts` |

How JavaScript and the outside world are represented:

- **Numbers.**
  - Numeric values are exact `real`s.
  - Station AQI values and scores are `int`s.
  - A series value is `Reading`, which is finite, NaN or ±Infinity, so the finiteness filter of the scorer is explicit.
  - The threshold and radius only ever come from `parseInt` or from the store's initial `3`. They are `Num`, which is `Int(n)` or `NaN`.
  - `Number(stationId)` in the history route is modelled by the full `Js.ToNumber` grammar: blank strings, `0x`/`0o`/`0b` literals, decimal fractions and exponents, and `Infinity`.
- **Upstream calls.**
  - Every fetch (OpenAQ, the app's own routes) is a function parameter from request to outcome.
  - An outcome can throw (network or schema failure), be non-OK with a status and body text, or be parsed.
  - The clock (`now`, in milliseconds) is a parameter too.
- **Store.**
  - The store is a class whose fields the setters assign.
  - `refreshAll` is `BeginRefresh` followed by `FinishRefresh`. `BeginRefresh` is the synchronous part before the first `await`.
  - `FinishRefresh` applies the pure `Store.Refresh` step to the fetched outcomes, one awaited reply at a time: `StoreStations` after the station list, `StoreWeather` after the weather, `Complete` for the final `set`. Each method is proved against the matching step function (`Refresh`, `WithStations`, `WithWeather`, `Completed`).
  - The chat panel's "set city" starts a refresh. `HandleSend` returns the pending refresh start rather than awaiting it.
- **URL parameters.** They are an ordered list of key/value pairs. `URLSearchParams.get` is the first match (`Dashboard.Get`) and `set` replaces or appends (`Details.SetParam`).

Some behaviours of the code are easy to misread; the model makes each one explicit:

- **The AQI table has gaps.** A concentration between two rows (12.0 to 12.1, say) matches no row and falls back to the last, "hazardous", row. The interpolation then uses that row's formula, so 12.05 gives AQI 83, band hazardous (`Aqi.GapExample`).
- **Sensor matching differs between the routes.**
  - The stations route accepts a sensor named exactly `pm25`.
  - The history route lower-cases the name first.
  - So for the same sensor list, whenever the stations route finds a PM2.5 sensor, the history route finds one too (`HistoryRoute.HistorySensorCoversStationSensor`). The history route reads its sensors from a separate `/locations/{id}` reply, so this does not say that every listed station has a history.
- **A blank `stationId` becomes 0.** A whitespace-only `stationId` is truthy and `Number` maps it to 0, so it is not rejected as non-numeric (`HistoryRoute.BlankStationIdReadsAsZero`).
- **`parameter` is unused.** The history route reads the `parameter` query value and never uses it.

## Model

| member | source | states |
|---|---|---|
| Common.Filter | app/page.tsx:81-87 | the kept elements all satisfy the predicate and are a sub-multiset of the input, never more of them |
| Common.FilterComplete | app/page.tsx:81-87 | every element that satisfies the predicate is kept |
| Common.FilterIsSubsequence | app/page.tsx:78-90 | filtering keeps the original order: the result is a subsequence of the input |
| Common.FilterKeepsAll | app/page.tsx:78-90 | when every element satisfies the predicate the list comes back unchanged |
| Common.SumWithin | app/page.tsx:93-97 | a sum of n terms within [lo, hi] lies within [n·lo, n·hi] |
| Common.SumAbove | store/useAppStore.ts:105-106 | n terms all above m sum to more than n·m |
| Common.SumBelow | store/useAppStore.ts:105-106 | n terms all below m sum to less than n·m |
| Common.MeanWithin | store/useAppStore.ts:101-107 | a mean of values within a box lies within the box |
| Common.MeanBetweenElements | app/page.tsx:93-97 | the mean of a non-empty list lies between some element and some element (its min and max) |
| Js.DigitChar | app/api/openaq/stations/route.ts:169 | the printed digit is a decimal digit that reads back as the same value |
| Js.TrimStart | components/ChatPanel.tsx:58 | removes exactly the leading whitespace: the result is a suffix that does not start with whitespace, and what was dropped is whitespace |
| Js.TrimEnd | components/ChatPanel.tsx:58 | removes exactly the trailing whitespace: the result is a prefix that does not end with whitespace, and what was dropped is whitespace |
| Js.TrimEmptyIffBlank | components/ChatPanel.tsx:58 | `trim()` is empty exactly when every character is whitespace |
| Js.ToLowerKeepsLower | components/ChatPanel.tsx:70 | lower-casing (`Js.ToLower`, ASCII letters only) leaves a string without upper-case letters unchanged |
| Js.FindFirst | components/ChatPanel.tsx:73 | finds the first position from `from` on that satisfies the test, or reports that none does |
| Js.ContainsIff | app/api/openaq/stations/route.ts:75-93 | `includes` holds exactly when the needle occurs at some position |
| Js.Run | components/ChatPanel.tsx:90 | the greedy `cls+` run: a slice of the input, every character in the class, ending at the end or at a character outside it |
| Js.RunWhole | components/ChatPanel.tsx:90 | a run over a tail that is all in the class is the whole tail |
| Js.RunSingle | components/ChatPanel.tsx:90 | a greedy run whose first character is in the class and whose next is not (or is the end) captures exactly that one character |
| Js.MatchCapture | components/ChatPanel.tsx:73 | `s.match(/lit(cls+)/)`: no match exactly when no position has the literal followed by a class character; otherwise the capture is the greedy run after the first such position, non-empty, made of class characters from the input |
| Js.NatToString | app/api/openaq/stations/route.ts:169 | the decimal string of a natural number is a non-empty string of digits |
| Js.NatToStringValue | app/api/openaq/stations/route.ts:169 | printing a natural number in decimal and reading the digits back gives the number |
| Js.ParseDigits | components/ChatPanel.tsx:92 | `parseInt` of a non-empty digit string is its decimal value |
| Js.ParseIntToString | app/page.tsx:48 | `parseInt(String(n), 10) == n` for every integer |
| Js.ParseNumToString | app/page.tsx:48-51 | `parseInt(x.toString(), 10) == x` for every integer or NaN that `parseInt` can produce |
| Js.Pow10Add | app/api/openaq/history/route.ts:61 | powers of ten (`Js.Pow10`) multiply by adding exponents: 10^(a+b) = 10^a · 10^b |
| Js.DigitsBelowPow10 | app/api/openaq/history/route.ts:61 | a string of n decimal digits has a value below 10^n |
| Js.HexValue | app/api/openaq/history/route.ts:61 | a character has a digit value below 16 exactly when it is a hexadecimal digit (0-9, a-f, A-F), and 16 otherwise |
| Js.HexDigitValues | app/api/openaq/history/route.ts:61 | a decimal digit has its decimal value, a to f count 10 to 15, and upper and lower case read the same |
| Js.RadixValue | app/api/openaq/history/route.ts:61 | a prefixed literal has a value exactly when it is non-empty and every digit is below the radix |
| Js.FractionValue | app/api/openaq/history/route.ts:61 | the digits after a decimal point contribute a value in [0, 1), and none at all contribute 0 |
| Js.TrimUntrimmed | app/api/openaq/history/route.ts:61 | a string without leading or trailing whitespace is its own trim |
| Js.DigitsAreDecimal | app/api/openaq/history/route.ts:61 | `Number` of a plain digit string is its decimal value |
| Js.SignedDigitsAreDecimal | app/api/openaq/history/route.ts:61 | `Number` of an optionally minus-signed digit string is its signed decimal value |
| Js.DigitsArePlain | app/api/openaq/history/route.ts:61 | a decimal numeral has no white space at either end and no radix prefix |
| Js.NegatedDigitsArePlain | app/api/openaq/history/route.ts:61 | so has a decimal numeral after a minus sign |
| Js.IntToStringIsPlain | app/api/openaq/history/route.ts:61 | `String(n)` has nothing to trim and no radix prefix |
| Js.PlainIsDecimal | app/api/openaq/history/route.ts:61 | `Number` of a string with no white space at either end and no radix prefix reads it as a signed decimal |
| Js.ToNumberIntToString | app/api/openaq/history/route.ts:61 | `Number(String(n)) == n` for every integer |
| Js.ToNumberHexLiteral | app/api/openaq/history/route.ts:61 | a hexadecimal station id is read in radix 16: `Number("0x10")` is 16 |
| Js.FractionLiteralValue | app/api/openaq/history/route.ts:61 | the unsigned decimal literal "2.5" has the value 2.5: whole part plus fraction |
| Js.ExponentLiteralValue | app/api/openaq/history/route.ts:61 | the unsigned decimal literal "3e2" has the value 300: the mantissa scaled by 10 to the exponent |
| Js.ToNumberFractionLiteral | app/api/openaq/history/route.ts:61 | a station id with a fraction is read with it: `Number("2.5")` is 2.5 |
| Js.ToNumberExponentLiteral | app/api/openaq/history/route.ts:61 | a signed station id with an exponent is scaled by it: `Number("-3e2")` is -300 |
| Js.ToNumberBlank | app/api/openaq/history/route.ts:61-62 | `Number` of an empty or all-whitespace string is 0, not NaN |
| Js.ToNumberBadStart | app/api/openaq/history/route.ts:61-62 | a trimmed string that starts with anything but a digit, `.`, a sign or `I` is NaN |
| Aqi.BandRank | lib/aqi.ts:2-7 | the five bands have ranks 0 to 4 |
| Aqi.BandNameRoundTrip | lib/aqi.ts:2-7 | each band's name reads back as that band, so the names are distinct |
| Aqi.TableWellFormed | lib/aqi.ts:17-23 | five rows, each with cLow < cHigh and iLow < iHigh, ascending and disjoint, so a concentration lies in at most one row |
| Aqi.FindRow | lib/aqi.ts:26-27 | `find`: the first covering row from k on, or none covers |
| Aqi.SelectRow | lib/aqi.ts:26-28 | the first covering row, or the last row when none covers (`??` fallback) |
| Aqi.Round | lib/aqi.ts:35 | `Math.round`: the integer r with r - 0.5 <= x < r + 0.5 (halves round up) |
| Aqi.Pm25ToAqi | lib/aqi.ts:25-36 | the band is the selected row's band, and the value is the rounded linear interpolant of that row |
| Aqi.CoveredSelectsRow | lib/aqi.ts:26-28 | a concentration inside row i selects row i |
| Aqi.InterpolateWithin | lib/aqi.ts:32-33 | inside its row the interpolant lies within [iLow, iHigh] |
| Aqi.RoundMonotone | lib/aqi.ts:35 | rounding is monotone |
| Aqi.RoundWithin | lib/aqi.ts:35 | rounding a value between two integers stays between them |
| Aqi.BreakpointEnds | lib/aqi.ts:17-35 | each row's cLow maps to (iLow, band) and its cHigh to (iHigh, band) |
| Aqi.CoveredValueInRow | lib/aqi.ts:26-35 | a concentration inside a row gets that row's band and a value in [iLow, iHigh] |
| Aqi.MonotoneInRow | lib/aqi.ts:32-33 | within one row a higher concentration never gets a lower AQI |
| Aqi.UncoveredFallsBack | lib/aqi.ts:26-28 | a concentration in no row (negative, above 500.4, or in a gap) is rated with the last row: band hazardous |
| Aqi.GapExample | lib/aqi.ts:17-35 | 12.05, in the gap between the first two rows, gives AQI 83 with band hazardous |
| Anomaly.Abs | lib/anomaly.ts:17 | `Math.abs`: non-negative and equal to x or -x |
| Anomaly.FiniteValuesMeaning | lib/anomaly.ts:6 | the kept values (`Anomaly.FiniteValues`) are exactly the values of the points with a finite reading |
| Anomaly.FiniteValuesAllFinite | lib/anomaly.ts:6 | when no reading is NaN or infinite, the kept values are the points' values, one per point, in order |
| Anomaly.PointValue | lib/anomaly.ts:6 | a point contributes one value exactly when its reading is finite, and that value is the reading |
| Anomaly.FiniteValuesConcat | lib/anomaly.ts:6 | the finite-value filter distributes over concatenation |
| Anomaly.Insert | lib/anomaly.ts:10 | inserting into a sorted list keeps it sorted and adds exactly that value |
| Anomaly.Sort | lib/anomaly.ts:10 | `sort((a, b) => a - b)`: ascending and a permutation of the input |
| Anomaly.SortedUnique | lib/anomaly.ts:10 | two sorted lists with the same elements are equal, so the sorted copy depends only on the multiset |
| Anomaly.MedianOfSortedWithin | lib/anomaly.ts:10-14 | the middle element (odd count) or the mean of the two middle ones (even count) lies between the first and last element |
| Anomaly.MedianBetween | lib/anomaly.ts:10-14 | the median lies between the minimum and the maximum of the values |
| Anomaly.MadNonNegative | lib/anomaly.ts:17-22 | the MAD is never negative |
| Anomaly.Scale | lib/anomaly.ts:28-29 | the denominator 1.4826·MAD + eps is at least eps, so it is never zero |
| Anomaly.ZFrom | lib/anomaly.ts:28-29 | the distance from the median over that denominator is never negative |
| Anomaly.ZScore | lib/anomaly.ts:25-29 | the robust z-score of the last finite value is never negative |
| Anomaly.ScaleScore | lib/anomaly.ts:32-33 | clamping at 5 and scaling gives an integer in [0, 100] |
| Anomaly.ComputeAnomaly | lib/anomaly.ts:4-33 | the score is always an integer in [0, 100] |
| Anomaly.NoFiniteValues | lib/anomaly.ts:6 | a series with no finite point has no values |
| Anomaly.NoFiniteValueScoresZero | lib/anomaly.ts:4-7 | an empty series, or one with no finite value, scores 0 |
| Anomaly.ScaleScoreEnds | lib/anomaly.ts:32-33 | the score is 0 exactly when z < 0.025 and 100 exactly when z >= 4.975, so z >= 5 gives 100 |
| Anomaly.SortConstant | lib/anomaly.ts:10 | sorting a constant list gives that constant everywhere |
| Anomaly.MedianConstant | lib/anomaly.ts:10-14 | the median of a constant list is the constant |
| Anomaly.ConstantScoresZero | lib/anomaly.ts:10-33 | a series whose finite values are all equal scores 0 |
| Anomaly.ZScoreConstant | lib/anomaly.ts:17-29 | a constant list has z-score 0 |
| Anomaly.TrailingNonFiniteIgnored | lib/anomaly.ts:6-25 | appending NaN or infinite points does not change the score: the scored value is the last finite one |
| Anomaly.MedianPermutation | lib/anomaly.ts:10-14 | the median does not depend on the order of the values |
| Anomaly.AbsDeviationsConcat | lib/anomaly.ts:17 | the absolute deviations (`Anomaly.AbsDeviations`) distribute over concatenation |
| Anomaly.AbsDeviationsPermutation | lib/anomaly.ts:17 | permuting the values permutes their absolute deviations from the median (`Anomaly.AbsDeviations`) |
| Anomaly.MadPermutation | lib/anomaly.ts:17-22 | the MAD does not depend on the order of the values |
| Anomaly.ZScorePermutation | lib/anomaly.ts:10-29 | the z-score does not change when the values are permuted and the last one stays last |
| Anomaly.PermutationInvariant | lib/anomaly.ts:6-33 | permuting the finite values before the last finite one leaves the score unchanged |
| Anomaly.MedianFlatThenOne | lib/anomaly.ts:10-14 | with at least two equal values followed by one more, the median is the repeated value (`Anomaly.Repeat` copies of it) |
| Anomaly.FlatThenOneZScore | lib/anomaly.ts:17-29 | for such a series the MAD is 0, so z = abs(x - c) / eps |
| Anomaly.OutlierSaturates | lib/anomaly.ts:28-33 | a flat series followed by an outlier with abs(x - c) >= 5·eps scores 100 (e.g. six 10s then 100) (the flat part is `Anomaly.Repeat`) |
| Store.DefaultCity | store/useAppStore.ts:33-38 | the default city is never empty: "San Francisco", `NEXT_PUBLIC_DEFAULT_CITY`, or (only on the server) `DEFAULT_CITY` |
| Store.DefaultCityPrecedence | store/useAppStore.ts:33-38 | `NEXT_PUBLIC_DEFAULT_CITY` wins when set; the browser ignores `DEFAULT_CITY`; with neither, "San Francisco" (each fallback is `Js.Or`) |
| Store.InitialState | store/useAppStore.ts:40-53 | the initial state: centre (-122.4194, 37.7749), radius 3, no threshold, anomalies-only off, no stations, selection, weather or timestamp, not loading, no error |
| Store.Toggled | store/useAppStore.ts:59 | toggling flips the anomalies-only flag and changes no other field |
| Store.ToggleTwiceIsIdentity | store/useAppStore.ts:59 | toggling twice restores the state |
| Store.EmptyListKeepsCenter | store/useAppStore.ts:94-95 | an empty station list keeps the previous centre |
| Store.SFCenter | store/useAppStore.ts:98-109 | for San Francisco the centre is the mean of the stations inside the lon [-122.6, -122.3], lat [37.6, 37.9] box and lies inside the box; with none inside, the previous centre is kept (the longitudes and latitudes are `Store.Lons` and `Store.Lats`) |
| Store.OtherCityCenter | store/useAppStore.ts:110-115 | for any other city the centre is the mean of all stations and lies between their minimum and maximum longitude and latitude (the longitudes and latitudes are `Store.Lons` and `Store.Lats`) |
| Store.InsertByAqi | store/useAppStore.ts:140-141 | inserting into a list sorted by descending AQI keeps it sorted and adds exactly that station |
| Store.SortByAqi | store/useAppStore.ts:140-141 | `sort((a, b) => b.aqi - a.aqi)`: descending by AQI and a permutation of the stations |
| Store.TopStationsSelection | store/useAppStore.ts:140-142 | at most ten stations are selected, min(10, count) exactly; together with the rest they are all the stations; every selected AQI is >= every unselected AQI |
| Store.ScoreFromHistory | store/useAppStore.ts:156-166 | a history reply yields a score, in [0, 100], exactly when it is OK, carries no error and holds a non-empty series, and the score is `computeAnomaly` of that series (`Anomaly.ComputeAnomaly`) |
| Store.Results | store/useAppStore.ts:144-172 | one result per top station |
| Store.FindScoreOfResults | store/useAppStore.ts:174-176 | looking a station id up in the results gives that station's history score when the id is among the top stations, nothing otherwise |
| Store.Merge | store/useAppStore.ts:175-178 | the merged list has one station per station |
| Store.MergeScores | store/useAppStore.ts:144-178 | the merge keeps length, order and every field but `anomaly`; a station's anomaly becomes its history score exactly when its id is in the top ten and its history scored |
| Store.Ids | store/useAppStore.ts:176 | every station's id is in the id set |
| Store.IdsSize | store/useAppStore.ts:140-142 | a list has no more distinct ids than stations, and each id belongs to some station |
| Store.ScoredHasTopId | store/useAppStore.ts:174-178 | a station whose anomaly changed carries the id of a top station |
| Store.AtMostTenScoredIds | store/useAppStore.ts:140-178 | at most ten distinct ids receive a score |
| Store.SubsetSize | store/useAppStore.ts:140-178 | a subset is no larger than its superset |
| Store.StationsOutcome | store/useAppStore.ts:81-90 | a non-OK reply fails with "Failed to fetch stations: " + statusText; an `error` field fails with that message; otherwise the list is the array, or `.stations`, or empty |
| Store.RefreshStationsFailure | store/useAppStore.ts:81-189 | a refresh always ends not loading; a failed stations fetch sets `error`, clears `loading`, rethrows, and leaves stations and centre untouched |
| Store.WeatherDone | store/useAppStore.ts:113-171 | a weather step that resolves stores the merged scores and the time stamp, clears `loading`, and keeps the centre and the error |
| Store.RefreshSuccess | store/useAppStore.ts:90-184 | a completed refresh stores the fetched stations (scores aside), the computed centre and the timestamp, stops loading and keeps the cleared error |
| Store.AppStore.constructor | store/useAppStore.ts:42-53 | the store starts in the initial state for the default city |
| Store.AppStore.SetCity | store/useAppStore.ts:55 | changes the city and nothing else |
| Store.AppStore.SetCenter | store/useAppStore.ts:56 | changes the centre and nothing else |
| Store.AppStore.SetRadius | store/useAppStore.ts:57 | changes the radius and nothing else |
| Store.AppStore.SetThreshold | store/useAppStore.ts:58 | changes the threshold and nothing else |
| Store.AppStore.ToggleAnomaliesOnly | store/useAppStore.ts:59 | flips the anomalies-only flag and nothing else |
| Store.AppStore.SetStations | store/useAppStore.ts:60 | changes the station list and nothing else |
| Store.AppStore.SetSelected | store/useAppStore.ts:61 | changes the selection and nothing else |
| Store.AppStore.SetWeather | store/useAppStore.ts:62 | changes the weather and nothing else |
| Store.AppStore.SetError | store/useAppStore.ts:63 | changes the error and nothing else |
| Store.AppStore.BeginRefresh | store/useAppStore.ts:65-67 | snapshots city and centre, sets loading and clears the error, nothing else |
| Store.AppStore.FinishRefresh | store/useAppStore.ts:69-189 | the new state and outcome are the refresh step applied to the old state and the fetched outcomes |
| Store.AppStore.StoreStations | store/useAppStore.ts:88-176 | after the station list arrives, the new state and outcome are the rest of the refresh step from the old state |
| Store.AppStore.StoreWeather | store/useAppStore.ts:113-176 | after the weather reply arrives, the new state and outcome are the weather step from the old state |
| Store.AppStore.Complete | store/useAppStore.ts:130-171 | the final `set`: scores merged into the list, the time stamp set, `loading` cleared, nothing else changed |
| Store.AppStore.RefreshAll | store/useAppStore.ts:65-190 | the whole refresh: the refresh step from the state with loading set and error cleared, using the old city and centre |
| Dashboard.FilterStationsIsFilter | app/page.tsx:78-90 | the two successive filters are one filter by "above threshold and, if on, anomalous" |
| Dashboard.FilterStationsMeaning | app/page.tsx:78-90 | a station is shown exactly when it is in the list, its AQI exceeds the threshold (if any) and, with anomalies-only on, its anomaly (0 if missing) is >= 75; order is kept; with no filter the list is unchanged |
| Dashboard.AvgAqiBetween | app/page.tsx:93-97 | the average AQI of a non-empty list lies between its minimum and maximum (over the AQIs `Dashboard.Aqis`, one per station) |
| Dashboard.AnomalyCount | app/page.tsx:99-101 | the anomaly count never exceeds the shown count |
| Dashboard.AnomalyCountWhenOnly | app/page.tsx:85-101 | with anomalies-only on, every shown station counts as an anomaly |
| Dashboard.Get | app/page.tsx:38-42 | `searchParams.get`: the value of the first pair with that key, or none when no pair has it |
| Dashboard.HydratedChangesOnlyPresent | app/page.tsx:37-61 | hydration sets city, threshold, radius and selection only from present non-empty parameters, ORs the flag with `anomalies=1`, and changes nothing else |
| Dashboard.Hydrate | app/page.tsx:37-61 | the store's new state is the hydrated old state |
| Details.SelectedStation | components/DetailsPanel.tsx:20 | the first station whose id equals the selected id, or none when nothing is selected or no id matches |
| Details.CenterMap | components/DetailsPanel.tsx:65-70 | with a selected station the centre moves to its coordinates and nothing else changes; otherwise nothing changes |
| Details.SetParam | components/DetailsPanel.tsx:77-91 | `params.set`: the key reads back as the value and every other key is unchanged |
| Details.RemoveKey | components/DetailsPanel.tsx:77-91 | removing a key leaves it absent and every other key unchanged |
| Details.SetParamNewKey | components/DetailsPanel.tsx:77-91 | setting an absent key appends it |
| Details.GetAppend | components/DetailsPanel.tsx:77-91 | an appended pair is seen only when the key was absent |
| Details.GetAppendIf | components/DetailsPanel.tsx:81-92 | a conditionally appended pair is seen only when the condition holds and the key was absent |
| Details.GetShare | components/DetailsPanel.tsx:76-92 | reading any key of the share parameters |
| Details.ShareParamsCarries | components/DetailsPanel.tsx:76-92 | the link always carries city and select; `aqi_gt` only with a threshold; `radius` only when it is not 3; `anomalies=1` only with the flag on |
| Details.CopyLinkSteps | components/DetailsPanel.tsx:76-92 | the successive `params.set` calls build the share parameters |
| Details.CopyLink | components/DetailsPanel.tsx:72-97 | without a selected station, no link; otherwise the share parameters of the current state and that station |
| Details.NumToStringNonEmpty | components/DetailsPanel.tsx:82-87 | `toString()` of a threshold or radius is never empty, so hydration reads it back |
| Details.ShareLinkRoundTrip | components/DetailsPanel.tsx:76-92 | hydrating the copied parameters into an initial store restores city, selection, threshold, radius and the anomalies flag |
| Details.GetBandColorOfBand | components/DetailsPanel.tsx:99-114 | each band's name gets the badge classes of that band's hue |
| Details.BandColorsDistinct | components/DetailsPanel.tsx:99-114 | the five bands get five distinct classes, none of them slate; any other string gets slate |
| Details.BadgeAgreesWithFilter | components/DetailsPanel.tsx:153-188 | the ANOMALOUS badge shows exactly for stations the anomalies filter keeps, and only with the score row shown |
| Details.ClassifyHistory | components/DetailsPanel.tsx:32-59 | a failed request or a 404 gives empty history; otherwise an array is the history, an object with `error` gives empty, `.series` gives the series, anything else empty |
| TopStats.Tier | components/TopStats.tsx:29-43 | five tiers, 0 to 4 |
| TopStats.ColorsDistinct | components/TopStats.tsx:29-43 | different tiers get different colours and different gradients |
| TopStats.ColorAgreesWithGradient | components/TopStats.tsx:29-43 | two values share a colour exactly when they share a gradient, exactly when they share a tier |
| TopStats.TierMatchesBand | components/TopStats.tsx:29-35 | for a concentration inside the AQI table, the colour tier of its AQI is its band's rank |
| TopStats.AqiBarWidth | components/TopStats.tsx:59 | the AQI bar is at most 100% wide, not negative for a non-negative average, and avg/3 up to 300 |
| TopStats.AnomalyBarWidth | components/TopStats.tsx:86-90 | the anomaly bar is drawn exactly when there are anomalies, with a width in (0, 100] |
| TopStats.AnomalyBarIsShare | components/TopStats.tsx:86-90 | for the dashboard's counts the bar is the anomalous share of shown stations, in percent |
| TopStats.Render | components/TopStats.tsx:15-110 | four cards, all placeholders exactly when loading |
| TopStats.RenderShows | components/TopStats.tsx:16-90 | loading shows four placeholders; otherwise the first card shows the rounded average and the anomaly card is highlighted exactly when it has a bar |
| Chat.Classify | components/ChatPanel.tsx:72-191 | numeric captures are non-empty digit runs; city and select captures are non-empty, one line, and taken from the text |
| Chat.ClassifyFirstRuleWins | components/ChatPanel.tsx:70-191 | the command is the first rule that matches: set city, filter aqi >, radius, show anomalies, hide anomalies, select, default |
| Chat.DigitCaptureParses | components/ChatPanel.tsx:90-109 | a captured digit run parses to its decimal value |
| Chat.StripQuotes | components/ChatPanel.tsx:156 | no quote character survives |
| Chat.FindStation | components/ChatPanel.tsx:157-159 | the first station whose id equals the query or whose lower-cased name contains it, or none when no station matches |
| Chat.NumericCommands | components/ChatPanel.tsx:89-119 | "filter aqi > N" sets the threshold to N and "radius N" the radius to N, nothing else |
| Chat.ShowHideIdempotent | components/ChatPanel.tsx:121-151 | "show anomalies" leaves the flag on and "hide anomalies" off, whatever it was, so repeating either changes nothing |
| Chat.SelectCommand | components/ChatPanel.tsx:153-181 | "select q" selects the first matching station; with no match the state is unchanged and the reply is "Station not found: q." |
| Chat.TrimKeepsCharacters | components/ChatPanel.tsx:75 | trimming only drops characters |
| Chat.TrimmedCaptureIsLower | components/ChatPanel.tsx:70-75 | a trimmed capture of lower-cased text is lower case |
| Chat.TrimEnds | components/ChatPanel.tsx:75 | a trimmed string neither starts nor ends with whitespace |
| Chat.SetCityStoresLowerTrimmed | components/ChatPanel.tsx:70-87 | "set city X" stores X lower-cased and trimmed and triggers a refresh |
| Chat.ChatPanel.constructor | components/ChatPanel.tsx:33-47 | the panel starts with the two seed messages, naming the store's city, and an empty input |
| Chat.ChatPanel.HandleSend | components/ChatPanel.tsx:57-192 | blank input changes nothing; otherwise the trimmed user message and exactly one reply are appended, the input is cleared, the store takes the command's new state, and a refresh starts exactly for "set city" |
| Chat.ChatPanel.RunCommand | components/ChatPanel.tsx:70-191 | the store and reply follow the classified command, with a pending refresh from the new city and old centre exactly when the command refreshes |
| Chat.ChatPanel.Send | components/ChatPanel.tsx:60-192 | for non-empty trimmed input: the user message and exactly one reply are appended, the input is cleared, the store takes the command's new state, and a refresh starts exactly for "set city" |
| Chat.ChatPanel.RunNumericCommand | components/ChatPanel.tsx:85-113 | when "set city" did not match, the store and reply follow the classified command and nothing refreshes |
| Chat.ChatPanel.RunOtherCommand | components/ChatPanel.tsx:115-143 | when no capturing command matched, the store and reply follow the command and nothing refreshes |
| Chat.ChatPanel.RunSelectCommand | components/ChatPanel.tsx:145-191 | when only "select" or the default reply can apply, the store and reply follow the command and nothing refreshes |
| StationsRoute.RouteCity | app/api/openaq/stations/route.ts:66-71 | the city is the non-empty `city` parameter, else `DEFAULT_CITY`, else `NEXT_PUBLIC_DEFAULT_CITY`, else "San Francisco"; never empty (each fallback is `Js.Or`, JavaScript's `||` on strings) |
| StationsRoute.LowerCharIdempotent | app/api/openaq/stations/route.ts:75-93 | lower-casing a character twice is lower-casing it once |
| StationsRoute.ToLowerIdempotent | app/api/openaq/stations/route.ts:75-93 | lower-casing a string twice is lower-casing it once |
| StationsRoute.IsUSCityIgnoresCase | app/api/openaq/stations/route.ts:75-93 | the US-city test does not depend on the city's case |
| StationsRoute.QueryFor | app/api/openaq/stations/route.ts:95-101 | the locations query asks for the city, parameter 2 and 50 results, with `iso=US` exactly when the lower-cased city contains one of the 19 names |
| StationsRoute.FindPm25Sensor | app/api/openaq/stations/route.ts:131-134 | the first sensor with parameter id 2 or name exactly "pm25", or none when no sensor qualifies |
| StationsRoute.FindReading | app/api/openaq/stations/route.ts:156-160 | the first latest reading for that sensor id, or none when there is none |
| StationsRoute.TransformCases | app/api/openaq/stations/route.ts:124-180 | a location is kept exactly when it has coordinates, a PM2.5 sensor and a latest reading for it; it fails the request exactly when the latest fetch throws; otherwise it is dropped |
| StationsRoute.KeptStation | app/api/openaq/stations/route.ts:162-177 | a kept station's id reads back as the location id; its name is name ?? locality ?? "Location id"; its AQI and band come from one `pm25ToAqi`; pm25 is its only pollutant; it has no anomaly |
| StationsRoute.KeptStationsMeaning | app/api/openaq/stations/route.ts:184-186 | the output holds exactly the kept stations, in order, no more of them than outcomes (`StationsRoute.StationsOf` of the kept outcomes) |
| StationsRoute.HandleStations | app/api/openaq/stations/route.ts:62-198 | a throw gives 500 "Failed to fetch stations"; a non-OK locations reply gives 500 with its status and body; a throw in any location's transform gives 500; otherwise the kept stations; status 200 exactly for the list |
| StationsRoute.StationListFromLocations | app/api/openaq/stations/route.ts:182-186 | no more stations than locations, each one the kept transform of some location (the outcomes are `StationsRoute.Outcomes`, one transform per location) |
| HistoryRoute.FindHistorySensor | app/api/openaq/history/route.ts:100-102 | the first sensor with parameter id 2 or lower-cased name "pm25", or none when no sensor qualifies |
| HistoryRoute.HistorySensorCoversStationSensor | app/api/openaq/history/route.ts:100-102 | every sensor the stations route takes for PM2.5 is also taken here |
| HistoryRoute.MeasurementsQueryFor | app/api/openaq/history/route.ts:114-119 | the window starts seven days (604800000 ms) before now, with limit 1000, for the chosen sensor |
| HistoryRoute.InsertByTime | app/api/openaq/history/route.ts:155-157 | inserting into a time-sorted series keeps it sorted and adds exactly that point |
| HistoryRoute.SortByTime | app/api/openaq/history/route.ts:155-157 | ascending by time and a permutation of the points |
| HistoryRoute.SeriesOfMeasurements | app/api/openaq/history/route.ts:150-157 | the series has one point per measurement, sorted by time, and a measurement is in it exactly when its point is (the points are `HistoryRoute.ToPoints` of the measurements) |
| HistoryRoute.HandleHistory | app/api/openaq/history/route.ts:48-167 | missing id: 400 "stationId required"; NaN id: 400 "stationId must be numeric"; lookup 404: 404 "Location not found"; other non-OK: 500 "Location lookup failed"; no sensor: 404; measurements non-OK: 500 with status and body; a throw: 500; else the sorted series |
| HistoryRoute.StationIdAccepted | app/api/openaq/history/route.ts:54-67 | a station id produced by the stations route passes both checks and asks for that same location |
| HistoryRoute.BlankStationIdReadsAsZero | app/api/openaq/history/route.ts:54-67 | a non-empty whitespace-only id is accepted and read as location 0 |
| HistoryRoute.AsReply | app/api/openaq/history/route.ts:54-165 | the reply has the answer's status, which is OK exactly for a series |
| HistoryRoute.PanelShowsSeries | components/DetailsPanel.tsx:32-54 | the details panel charts exactly the series of a successful answer and nothing for any failure |
| HistoryRoute.StoreScoresSeries | store/useAppStore.ts:156-166 | the store scores a station exactly when its history answer is a non-empty series |

## Left out

- Network I/O. `fetch`, request headers, API keys, `User-Agent`, caching and zod's runtime parsing are not modelled. Each upstream call is a function parameter whose outcome is a throw, a non-OK status with its text, or a parsed body.
- `app/api/weather/route.ts` is not part of this model. It is a pass-through, and the store only sees its reply as an input.
- `components/MapView.tsx`, `components/Legend.tsx`, `app/layout.tsx` and `lib/geo.ts` are not part of this model. They are map rendering, static display and an environment lookup.
- React effects and hooks, toasts, animations, logging, the clipboard write and `window.location` are not modelled. `CopyLink` returns the parameter list the link is built from, without origin or path.
- `Date.now` message ids are not modelled. Messages carry only a role and text.
- The dynamic `import()` of the anomaly module is not modelled.
- Concurrency is not modelled: the `Promise.all` fan-outs and overlapping `refreshAll` calls. Each refresh is one sequential step over given outcomes.
- The weather fetch in a refresh is an input outcome. Only its effect on `weather` is modelled.
- IEEE-754 arithmetic is not modelled. Values are exact reals, so float rounding artefacts do not appear, and `toFixed` and chart rounding are display only.
- JavaScript's exponential printing of numbers at or above 1e21 is not modelled. Integers print in plain decimal.
- ISO date strings, `new Date(...)` and `subDays` are not modelled. Instants are integer milliseconds, and the seven-day window is a fixed 604800000 ms, so a daylight-saving shift is ignored.
- Percent-encoding of URLs and the URL text itself are not modelled. Queries are records and parameters are key/value lists.
- Case mapping is ASCII only. Non-ASCII letters are left as they are.
- The chat's default reply is modelled with the intended em dash.
- SortByAqi: stability of `Array.prototype.sort` is not stated. Ties among equal AQI values are ordered by the model's own insertion, so which of several tied stations make the top ten is not claimed to match the browser.
- SortByTime: stability is not stated either. Points with equal instants may come out in another order than in the browser.
- AtMostTenScoredIds: counts distinct ids that receive a score, not stations. When several stations share an id, each of them takes the score found for it.
- Store.AppStore.SetRadius: the threshold and radius are `Num` (an integer or NaN). The store could hold any number, but only `parseInt` results and the default 3 ever reach these fields, and `-0` is folded into 0.
- HistoryRoute.AsReply: the reply body keeps only `error` and `series`. The 404 answer's `upstreamStatus: 404` and an upstream error's status are dropped, since only the panel's `console.error` reads them and logging is not modelled.
- HandleHistory: the `parameter` query value is not an input, since it never influences the answer.
