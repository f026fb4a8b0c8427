# Flight logbook rules, modelled in Dafny

This project models the rule-bearing core of a single-pilot flight logbook:

- **passenger currency** under the 90-day takeoff-and-landing rule of
  14 CFR 61.57(a) (day landings) and 61.57(b) (night full-stop landings),
  with the newest-first scan that fixes the currency's expiry date;
- **medical status** buckets (expired / critical / warning / current / none);
- the **medical privilege ladder**: calendar-month expiries snapped to the
  end of the month (12 months for first and second class, 60 for third) and
  the privilege level a medical gives on a reference date;
- the **dashboard statistics**: category totals, the zero-filled trailing
  monthly series, the cumulative series, cross-country PIC time, progress
  toward the commercial (14 CFR 61.129(a)) and instrument (14 CFR 61.65(d))
  minimums, passenger and instructor leaderboards, per-aircraft, per-class
  and per-type groupings, recent flights and aircraft highlights;
- the **airport import** command's row validation and code choice;
- the **route labels** (`Airport.__str__`, `Route.__str__`) and the
  ordering of a route's steps;
- the **route map tally** of the static-site export and its JSON
  serializers for the currency, medical and licence reports.

Database queries become reductions over an in-memory `seq<Flight>`; the
reference date ("today", "now") is a parameter. Hours are kept in integer
tenths (`Tenths`), because every time column has one decimal place; on
exact tenths Python's `round(x, 1)` changes nothing. Percentages are
`real`. Roles are the closed enum `Pilot | Instructor | Examiner |
Passenger` (codes PI, I, E, PA) and plane classes `SEL | MEL`.

Modules, one per source component:

| file | module | source |
|---|---|---|
| wrappers.dfy | `Wrappers` | Python's `None` as `Option` |
| calendar.dfy | `Calendar` | `datetime.date` day numbers, `timedelta(days=n)`, `relativedelta(months=n)` |
| date_format.dfy | `DateFormat` | `date.isoformat()` and `strftime('%b %Y')` |
| sequences.dfy | `Sequences` | `order_by`, `sorted`, slicing, `Sum`, `filter` |
| routes.dfy | `Routes` | routes/models.py |
| logbook.dfy | `Logbook` | the record shapes and the filtered sums the queries compute |
| medicals.dfy | `Medicals` | medicals/models.py |
| currency.dfy | `Currency` | flights/utils/currency_calculator.py |
| statistics.dfy | `Statistics` | flights/utils/statistics.py (totals, progress, series, groupings) |
| leaderboards.dfy | `Leaderboards` | flights/utils/statistics.py (the two leaderboards) |
| aircraft.dfy | `Aircraft` | flights/utils/statistics.py (aircraft breakdown and highlights) |
| airport_import.dfy | `AirportImport` | routes/management/commands/load_airports.py |
| static_export.dfy | `StaticExport` | flights/management/commands/export_static.py (route tally) |
| serializers.dfy | `Serializers` | flights/management/commands/export_static.py (serializers) |

Where the code loops and updates variables (the expiry scans, the monthly
and cumulative series, the leaderboards, the aircraft breakdown, the
airport import loop, the route tally), the model is a `method` with a
`while` loop whose invariants tie its state to a specification function;
the properties are lemmas about those functions. Pure computations
(medical expiries, progress blocks, buckets, labels) are functions.

### Behaviour of the code as written (the model follows the code)

- The instructor leaderboard counts flights only, not ground sessions, and
  ranks by (flight count, flight time), like the passenger board
  (flights/utils/statistics.py:279-316).
- Instrument-rating progress takes simulated time from flights only and
  caps all of it at 20 hours (flights/utils/statistics.py:210-242).
  Simulator sessions are not read.
- The 90-day landing count has only a lower bound (`date__gte`): a flight
  dated after today still counts (flights/utils/currency_calculator.py:13-17).
- `check_medical_status` orders by `date_issued` and reads `date_expires`
  and `medical_class`, which the `Medical` model does not have
  (medicals/models.py:15-19). As written, every call ends in the `except`
  branch and reports "none". The model states the bucketing over an
  abstract issued-medical record (`Currency.IssuedMedical`) and treats a
  failed lookup as `None`, which yields the "none" report.
- `Flight` as stored has no `flight_time` column and keeps `route` as a
  JSON list (flights/models.py:9-33). The statistics code reads
  `flight.flight_time` and `route.route_steps`. The model's `Flight` has
  the shape the statistics code reads: a flight time and an optional
  `Route` with its steps.
- `_serialize_medical` reads keys (`original_class`, `current_class`, the
  three class expiries, …) that `check_medical_status` does not produce
  (flights/management/commands/export_static.py:320-333). It is modelled
  over a report record that has those keys.

## Model

| member | source | states |
|---|---|---|
| `Calendar.AddDays` | flights/utils/currency_calculator.py:13 | `date + timedelta(days=n)` moves the day number by exactly `n` |
| `Calendar.AddMonths` | medicals/models.py:36 | `relativedelta(months=n)` lands `n` calendar months later, keeping the day or clamping it to the target month's length |
| `Calendar.OrdinalOrder` | medicals/models.py:73 | comparing day numbers is exactly Python's (year, month, day) date comparison |
| `Calendar.OrdinalInjective` | flights/utils/currency_calculator.py:33 | distinct dates have distinct day numbers |
| `Calendar.YearStep` | medicals/models.py:36-39 | a year adds 365 days, 366 in a Gregorian leap year |
| `DateFormat.IsoFormat` | flights/management/commands/export_static.py:314 | `isoformat()` gives ten characters with '-' at positions 4 and 7 for years 0 to 9999 |
| `DateFormat.ParseIso` | flights/management/commands/export_static.py:314 | a string the parser accepts is the ISO form of the date it returns |
| `DateFormat.IsoRoundTrip` | flights/management/commands/export_static.py:314 | parsing the ISO text of a date in years 1 to 9999 gives the date back |
| `DateFormat.MonthLabel` | flights/utils/statistics.py:67 | `'%b %Y'` is the month's three-letter abbreviation, a space, and the year |
| `DateFormat.MonthLabelInjective` | flights/utils/statistics.py:67 | different months in years 1 to 9999 get different labels |
| `Sequences.SortBy` | flights/utils/statistics.py:268 | sorting returns a permutation of the input, ordered by the key |
| `Sequences.Slice` | flights/utils/statistics.py:268 | `s[:limit]` is a prefix of length min(limit, len) for limit ≥ 0, and drops `-limit` items from the end for a negative limit |
| `Routes.AirportLabel` | routes/models.py:13-14 | an airport renders as its code, then " - ", then its name |
| `Routes.OrderedSteps` | routes/models.py:26-30 | the route's steps, a permutation of them, in ascending `sequence` |
| `Routes.Codes` | routes/models.py:29 | one waypoint code per step, in step order |
| `Routes.RouteLabel` | routes/models.py:26-36 | `Route.__str__`: the route's name and ": (" open the label and ")" closes it; the middle is given by `RouteLabelEmpty` and `RouteLabelNonEmpty` |
| `Routes.RouteLabelEmpty` | routes/models.py:33-36 | a route with no steps renders as "<name>: (No waypoints assigned)" |
| `Routes.JoinLayout` | routes/models.py:33 | `" -> ".join(parts)` lays the parts out in order: part i starts after every earlier part and its separator, a separator follows every part but the last, and the string ends with the last part |
| `Routes.RouteLabelNonEmpty` | routes/models.py:26-36 | otherwise the label is name and ": (", then the codes in ascending `sequence` laid out with " -> " between each two, then ")" |
| `Routes.JoinArrowCount` | routes/models.py:33 | joining n codes adds exactly n − 1 arrows: the '>' characters are the codes' own plus n − 1 |
| `Routes.JoinLength` | routes/models.py:33 | the joined length is the parts' lengths plus one separator between each two |
| `Routes.OrderedStepsStrict` | routes/models.py:46-48 | with `sequence` unique in a route, the step order has no ties |
| `Routes.StrictOrderUnique` | routes/models.py:46-48 | two strictly increasing arrangements of the same steps are identical |
| `Routes.RouteLabelIndependentOfStorage` | routes/models.py:23-36 | with unique sequence numbers the label does not depend on how the steps are stored |
| `Logbook.ByDateDescending` | flights/utils/currency_calculator.py:27 | `order_by('-date')`: the same flights, newest first |
| `Logbook.ByDateAscending` | flights/utils/statistics.py:143 | `order_by('date')`: the same flights, oldest first |
| `Logbook.WhereMembers` | flights/utils/currency_calculator.py:24-27 | a filtered query holds exactly the flights that satisfy the filter |
| `Logbook.TotalPermutation` | flights/utils/statistics.py:16 | an aggregate `Sum` does not depend on the order of the rows |
| `Logbook.TotalWindowMonotone` | flights/utils/currency_calculator.py:13-17 | moving the start of the date window later never raises its sum |
| `Logbook.TotalWherePositive` | flights/utils/currency_calculator.py:24-26 | dropping the flights where a column is zero keeps every sum of that column |
| `Logbook.CountPositive` | flights/utils/statistics.py:335 | a `Count` is positive exactly when some flight satisfies the filter |
| `Logbook.TotalPartition` | flights/utils/statistics.py:335-338 | grouping by conditions that partition the flights splits a total into parts that add up to it |
| `Logbook.KeyedPartition` | flights/utils/statistics.py:359-362 | grouping by a key: distinct keys that cover every flight partition the flights |
| `Medicals.MonthEndAfter` | medicals/models.py:36-39 | shift n months, go to the first of the next month, step back a day: the last day of the month n months after the examination month |
| `Medicals.FirstClassExpiry` | medicals/models.py:31-39 | defined iff the class is 1, and then the last day of the month 12 months after the examination month |
| `Medicals.SecondClassExpiry` | medicals/models.py:41-49 | defined iff the class is 1 or 2, and then the last day of the month 12 months after the examination month |
| `Medicals.ThirdClassExpiry` | medicals/models.py:51-58 | always defined: the last day of the month 60 months after the examination month |
| `Medicals.CurrentPrivilegeLevel` | medicals/models.py:60-88 | a level, when given, is 1 to 3, still valid on `as_of`, and never better than the class issued |
| `Medicals.NextExpirationDate` | medicals/models.py:90-105 | None iff the level is None; otherwise the expiry of that level's class, on or after `as_of` |
| `Medicals.MedicalLabel` | medicals/models.py:21-29 | the pilot's name followed by " First Class" iff class 1, " Second Class" iff class 2, " Third Class" for every other value |
| `Medicals.FirstClassExpiries` | medicals/models.py:31-58 | for a class-1 medical, first- and second-class expiries are the same date and third class lapses strictly later |
| `Medicals.SecondBeforeThird` | medicals/models.py:41-58 | second-class privileges always lapse before third-class ones |
| `Medicals.LevelIsSmallestValidClass` | medicals/models.py:70-88 | the level is k iff class k is carried and valid on `as_of` and no smaller class is |
| `Medicals.LevelNoneWhenAllLapsed` | medicals/models.py:82-88 | no level iff none of the three classes is still valid |
| `Medicals.LevelMonotone` | medicals/models.py:70-88 | a later `as_of` never gives a better level, and once None it stays None |
| `Medicals.FirstClassLevels` | medicals/models.py:60-88 | a first-class medical gives level 1 on its first-class expiry day, level 3 the day after (second class lapses with first), and no level the day after its third-class expiry |
| `Medicals.ExampleJanuaryExpiries` | medicals/models.py:36-58 | an examination on 2024-01-15 gives 2025-01-31 for first and second class and 2029-01-31 for third |
| `Medicals.ExampleJanuaryLevels` | medicals/models.py:60-88 | that medical gives level 1 on 2025-01-31, level 3 on 2025-02-01 and none on 2029-02-01 |
| `Currency.ExpiryScan` | flights/utils/currency_calculator.py:29-34 | the newest-first running count that stops at three returns the unique expiry (`IsExpiry`), 90 days after a flight with landings of that kind |
| `Currency.CrossingLower` | flights/utils/currency_calculator.py:29-33 | every flight up to the crossing flight is dated on or after it |
| `Currency.CrossingUpper` | flights/utils/currency_calculator.py:29-33 | every flight from the crossing flight on is dated on or before it |
| `Currency.CrossingIsExpiry` | flights/utils/currency_calculator.py:30-34 | the flight where the running total first reaches three fixes the expiry: the window closing that day holds three landings, the one closing a day later fewer |
| `Currency.WindowsOrdered` | flights/utils/currency_calculator.py:13-17 | a window holding three landings starts before a window holding fewer |
| `Currency.ClosingDayUnique` | flights/utils/currency_calculator.py:24-34 | the day a three-landing window closes is unique |
| `Currency.ExpiryUnique` | flights/utils/currency_calculator.py:37-47 | each kind of landing has exactly one expiry, whatever order same-day flights were scanned in |
| `Currency.ExpiryIndependentOfOrder` | flights/utils/currency_calculator.py:24-27 | the expiry depends only on which flights there are, not on their order |
| `Currency.CurrentHasExpiryAhead` | flights/utils/currency_calculator.py:13-34 | a pilot with three landings in the window has an expiry, on or after today |
| `Currency.Expiry` | flights/utils/currency_calculator.py:24-47 | the scan over the flights with landings of that kind, newest first: None when fewer than three landings in all, otherwise the closing day of the last three-landing window |
| `Currency.CheckPassengerCurrency` | flights/utils/currency_calculator.py:8-56 | day count sums `day_landings`, night count `night_fullstop_landings`, over flights on or after today − 90; current iff the count ≥ 3; both expiries as `Expiry`; current implies an expiry on or after today |
| `Currency.DaysUntilCurrencyExpires` | flights/utils/currency_calculator.py:109-133 | None for a kind other than "day" or "night"; for those, a value iff that currency is current, and then the non-negative number of days from today to its expiry |
| `Currency.ExampleNotCurrent` | flights/utils/currency_calculator.py:13-34 | single day landings on 2025-02-20, 2025-03-25 and 2025-05-01 give a count of 2 on 2025-06-01 (not current) and an expiry of 2025-05-21 |
| `Currency.Bucket` | flights/utils/currency_calculator.py:80-88 | exactly one bucket: expired iff days < 0, critical iff 0 ≤ days < 30, warning iff 30 ≤ days < 60, current iff days ≥ 60 |
| `Currency.BucketMonotone` | flights/utils/currency_calculator.py:80-88 | more days left never gives a more severe bucket |
| `Currency.LatestMedical` | flights/utils/currency_calculator.py:67 | `order_by('-date_issued').first()`: None iff there are no medicals, otherwise one issued no earlier than any other |
| `Currency.CheckMedicalStatus` | flights/utils/currency_calculator.py:59-106 | "none" with every field None iff the lookup fails or finds nothing; otherwise the latest medical's class, expiry, days remaining from today, and its bucket |
| `Statistics.GetTotalTimes` | flights/utils/statistics.py:9-33 | total landings is the sum over flights of all four landing columns; day plus night landings never exceed it; every field is 0 for an empty log |
| `Statistics.LandingsPerFlight` | flights/utils/statistics.py:13-18 | adding the four column sums equals adding every flight's landings |
| `Statistics.TotalTimesAppend` | flights/utils/statistics.py:9-33 | the totals of two logs together are the sums of their totals |
| `Statistics.TotalTimesPermutation` | flights/utils/statistics.py:9-33 | the totals do not depend on the order of the flights |
| `Statistics.GetInstrumentBreakdown` | flights/utils/statistics.py:75-86 | total = actual + simulated, and equals the per-flight instrument time summed |
| `Statistics.XcPicTime` | flights/utils/statistics.py:168-172 | cross-country time over flights with `xc_time > 0` and `pic_time > 0` is never more than all cross-country time |
| `Statistics.XcPicOnlyNeedsPic` | flights/utils/statistics.py:170 | the `xc_time > 0` filter changes nothing: it equals cross-country time over flights with PIC time |
| `Statistics.XcPicNeedsPicTime` | flights/utils/statistics.py:170 | a flight without PIC time adds no cross-country PIC time |
| `Statistics.SelTotalHours` | flights/utils/statistics.py:319-327 | flight time in single-engine-land planes, never more than all flight time |
| `Statistics.ClassHoursPartition` | flights/utils/statistics.py:319-327 | single- and multi-engine time add up to all flight time |
| `Statistics.ProgressToward` | flights/utils/statistics.py:182-205 | remaining = max(0, required − current); percentage = min(100, current/required·100), 100 iff the minimum is met |
| `Statistics.ProgressMonotone` | flights/utils/statistics.py:182-205 | more time never shows more remaining or a smaller percentage |
| `Statistics.GetCommercialProgress` | flights/utils/statistics.py:175-207 | three progress blocks (current, required, remaining = max(0, required − current), percentage capped at 100) for total time against 250 h, PIC time against 100 h and cross-country PIC time against 50 h |
| `Statistics.CommercialComplete` | flights/utils/statistics.py:175-207 | nothing remains on any block iff all three minimums are met |
| `Statistics.GetInstrumentRatingProgress` | flights/utils/statistics.py:210-242 | creditable simulated = min(simulated, 20 h); creditable total = actual + that; remaining = max(0, 40 h − creditable total) and percentage = min(100, creditable total / 40 h · 100); cross-country PIC time with its remaining and percentage against 50 h |
| `Statistics.InstrumentNeedsActualTime` | flights/utils/statistics.py:220-223 | the 40 hours cannot be met without at least 20 hours of actual instrument time |
| `Statistics.SimulatedBeyondCapIgnored` | flights/utils/statistics.py:220-221 | once 20 simulated hours are logged, more simulated time changes nothing |
| `Statistics.MonthlyBreakdown` | flights/utils/statistics.py:36-72 | exactly `months` entries for consecutive months ending at now's month, oldest first, labelled '%b %Y', each with that month's flight time (0 without flights) |
| `Statistics.MonthSeries` | flights/utils/statistics.py:62-72 | the loop stepping one calendar month at a time from the first of the start month |
| `Statistics.FlightsSince` | flights/utils/statistics.py:44-49 | `date__gte` on the first of a month keeps all the time of that month and every later month |
| `Statistics.SeriesSum` | flights/utils/statistics.py:62-72 | the entries' hours add up to the series total |
| `Statistics.SeriesCoversMonths` | flights/utils/statistics.py:36-72 | when every flight falls in the months listed, the monthly hours add up to all flight time |
| `Statistics.SeriesCoversWindow` | flights/utils/statistics.py:36-72 | with no flight after now's month, the monthly hours add up to the flight time since the first of the first month |
| `Statistics.CumulativeTimeData` | flights/utils/statistics.py:141-165 | one point per flight, oldest first, each holding the running totals of total, PIC, dual and actual + simulated instrument time |
| `Statistics.RunningTotals` | flights/utils/statistics.py:146-165 | the loop's running variables are the totals of the flights seen so far |
| `Statistics.CumulativeSeries` | flights/utils/statistics.py:141-165 | the series never goes down and its dates run oldest first |
| `Statistics.CumulativeEndsAtTotals` | flights/utils/statistics.py:141-165 | the last point holds the log's totals |
| `Statistics.RecentFlights` | flights/utils/statistics.py:116-127 | the first min(limit, n) flights newest first, each with day and night landings (touch-and-go + full stop) added up |
| `Statistics.MostRecentKept` | flights/utils/statistics.py:118 | no flight left out is newer than any flight kept |
| `Statistics.DaysSinceLastFlight` | flights/utils/statistics.py:130-138 | None iff there are no flights; otherwise the days from the most recent flight to today |
| `Statistics.ClassBreakdown` | flights/utils/statistics.py:330-353 | one entry per class flown, with its hours, flight count and share of all hours (0 when there are no hours) |
| `Statistics.ClassSharesAddUp` | flights/utils/statistics.py:340-351 | each share is between 0 and 100, and with any flight time the shares add up to 100 |
| `Statistics.PercentsAdd` | flights/utils/statistics.py:348 | two parts of a positive total have shares adding up to 100 |
| `Statistics.AircraftTypeStatistics` | flights/utils/statistics.py:356-373 | one entry per (type, class) flown, with its hours and positive flight count, every flight's type listed, none twice, most hours first |
| `Statistics.TypeHoursAddUp` | flights/utils/statistics.py:356-373 | the hours of all types add up to all flight time |
| `Leaderboards.Record` | flights/utils/statistics.py:255-262 | opens a person's record when first met, then counts one flight and adds its time |
| `Leaderboards.Rank` | flights/utils/statistics.py:264-276 | the records read off in the order first met, sorted by (count, time) descending and cut to `limit` |
| `Leaderboards.TallyCounted` | flights/utils/statistics.py:253-262 | every record of the dictionary holds its person's count and time and the person first met |
| `Leaderboards.PassengerLeaderboard` | flights/utils/statistics.py:245-276 | the loop over flights and their passengers of role PA computes the board of the passenger slots |
| `Leaderboards.InstructorLeaderboard` | flights/utils/statistics.py:279-316 | the loop over flights whose instructor has role I or E computes the board of the instructor slots |
| `Leaderboards.BoardRanked` | flights/utils/statistics.py:264-268 | the board is non-increasing by flight count, and by time among equal counts |
| `Leaderboards.BoardCounts` | flights/utils/statistics.py:253-262 | each record's count and time are its person's, with at least one flight |
| `Leaderboards.BoardDistinct` | flights/utils/statistics.py:253-258 | no person has two records |
| `Leaderboards.BoardSize` | flights/utils/statistics.py:268 | at most `limit` records, and when fewer, every person met is on the board |
| `Leaderboards.BoardTop` | flights/utils/statistics.py:264-268 | a person left off ranks no higher than anyone on the board |
| `Leaderboards.PassengerBoardRoles` | flights/utils/statistics.py:254 | everyone on the passenger board has role PA |
| `Leaderboards.InstructorBoardRoles` | flights/utils/statistics.py:283-290 | everyone on the instructor board has role I or E |
| `Leaderboards.InstructorCounts` | flights/utils/statistics.py:292-299 | an instructor's count is the number of flights they gave with role I or E, and their time those flights' time |
| `Leaderboards.PassengerCounts` | flights/utils/statistics.py:252-262 | a passenger's count is the number of flights they were on as PA, one per flight, and their time those flights' time |
| `Aircraft.FirstWaypointLeast` | flights/utils/statistics.py:98-102 | the location exists iff the flight has a route with a step, and it is the code of a step with the least `sequence` |
| `Aircraft.FirstOfTailEarliest` | flights/utils/statistics.py:93-96 | the flight an entry is opened from is the first flight of that plane in the walk |
| `Aircraft.TallyFlights` | flights/utils/statistics.py:92-108 | the loop's dictionary and key order are the fold of the walk over the flights ordered by plane, newest first |
| `Aircraft.AircraftBreakdown` | flights/utils/statistics.py:89-113 | the walk, then the entries sorted by hours, most first |
| `Aircraft.BreakdownHoursAddUp` | flights/utils/statistics.py:108 | the entries' hours add up to all flight time |
| `Aircraft.BreakdownHours` | flights/utils/statistics.py:108 | each entry's hours are the flight time in the plane with that tail number (`str(plane)`), and there is such a flight |
| `Aircraft.BreakdownCovers` | flights/utils/statistics.py:91-96 | every tail number flown has an entry |
| `Aircraft.BreakdownDistinct` | flights/utils/statistics.py:94 | no tail number has two entries |
| `Aircraft.BreakdownSorted` | flights/utils/statistics.py:111-113 | the entries come most hours first |
| `Aircraft.BreakdownSource` | flights/utils/statistics.py:89-105 | each entry's type and location come from that plane's newest flight, the first of its flights in the walk |
| `Aircraft.AircraftHighlights` | flights/utils/statistics.py:376-391 | None/None/0 iff there are no flights; otherwise the most and least flown entries and the number of entries |
| `Aircraft.BreakdownEmpty` | flights/utils/statistics.py:380-386 | the breakdown is empty iff there are no flights |
| `Aircraft.AircraftCount` | flights/utils/statistics.py:390 | the number of aircraft is the number of distinct tail numbers flown |
| `AirportImport.ValidateAirport` | routes/management/commands/load_airports.py:65-82 | rejects a row without ICAO code and ident, with an ident over 4 characters even when an ICAO code is set, or with an empty name, latitude, longitude, municipality or country; accepts every other row |
| `AirportImport.CodeOf` | routes/management/commands/load_airports.py:37-40 | the ICAO code when present, else the ident |
| `AirportImport.AcceptedCode` | routes/management/commands/load_airports.py:37-40 | an accepted row's code is non-empty, and one taken from the ident has at most 4 characters |
| `AirportImport.LoadAirports` | routes/management/commands/load_airports.py:27-52 | the loop appends the valid rows, converted, in file order, and counts the others as skipped; skipped + imported = rows |
| `AirportImport.ImportedPlusRejected` | routes/management/commands/load_airports.py:28-31 | every row is either skipped or imported, never both |
| `AirportImport.ImportedFromValidRows` | routes/management/commands/load_airports.py:28-51 | every imported airport comes from a valid row and has non-empty code, name, country and municipality |
| `AirportImport.ValidRowImported` | routes/management/commands/load_airports.py:28-51 | every valid row is imported |
| `AirportImport.ImportedAppend` | routes/management/commands/load_airports.py:28-42 | imported airports keep file order |
| `StaticExport.ExportRoutes` | flights/management/commands/export_static.py:242-302 | the exported route list is the specification `Exported`: the first-met drawable routes with their counts filled in |
| `StaticExport.TallyRoutes` | flights/management/commands/export_static.py:247-292 | after the first loop the route counts, the airport visits and the captured routes are those of all the flights |
| `StaticExport.AirportsOf` | flights/management/commands/export_static.py:255-258 | the airports of a flight's route, each once |
| `StaticExport.CountVisits` | flights/management/commands/export_static.py:260-261 | one more visit for each airport of the flight, and no other change |
| `StaticExport.CollectWaypoints` | flights/management/commands/export_static.py:264-276 | the waypoints in sequence order whose latitude and longitude are both non-zero |
| `StaticExport.KeepDrawable` | flights/management/commands/export_static.py:268-276 | the loop keeps exactly the steps with both coordinates, in order |
| `StaticExport.FillCounts` | flights/management/commands/export_static.py:294-300 | every exported route gets its flight count and every waypoint its visit count, and nothing else changes |
| `StaticExport.FillWaypoints` | flights/management/commands/export_static.py:298-300 | each waypoint's visit count is read from the visits dictionary |
| `StaticExport.FilledAgrees` | flights/management/commands/export_static.py:294-300 | filling from dictionaries that hold the true counts gives the exported form |
| `StaticExport.CapturesDistinct` | flights/management/commands/export_static.py:263 | each route is exported at most once |
| `StaticExport.CaptureSource` | flights/management/commands/export_static.py:263-292 | each exported route is that of the first flight on its id with something to draw |
| `StaticExport.CapturesComplete` | flights/management/commands/export_static.py:263-292 | every route flown with a drawable waypoint is exported |
| `StaticExport.CountsBounded` | flights/management/commands/export_static.py:252-261 | an airport counts once per flight, so no visit count and no route count exceeds the number of flights with a route |
| `StaticExport.RoutelessIgnored` | flights/management/commands/export_static.py:248 | flights without a route change nothing in the export |
| `StaticExport.ExportedRoute` | flights/management/commands/export_static.py:263-300 | an exported route has a flight count equal to its number of flights (≥ 1), drawable waypoints only, each with its airport's visit count (≥ 1) |
| `StaticExport.KeptSteps` | flights/management/commands/export_static.py:265-276 | the drawn waypoints are the steps with both coordinates, in sequence order, none dropped and none invented |
| `Serializers.IsoOrNone` | flights/management/commands/export_static.py:314 | an absent date stays absent, a present one becomes text |
| `Serializers.IsoOrNoneRoundTrip` | flights/management/commands/export_static.py:314 | reading an optional date back gives the date |
| `Serializers.SerializeCurrency` | flights/management/commands/export_static.py:309-318 | the flags and landing counts are copied; each expiry is None iff it is absent, otherwise its ISO text |
| `Serializers.CurrencyRoundTrip` | flights/management/commands/export_static.py:309-318 | the currency JSON loses nothing: reading it back gives the report, dates included |
| `Serializers.SerializeMedical` | flights/management/commands/export_static.py:320-333 | the flags, classes, days remaining and status are copied; each of the five dates is None iff it is absent, otherwise its ISO text |
| `Serializers.MedicalRoundTrip` | flights/management/commands/export_static.py:320-333 | the medical JSON loses nothing |
| `Serializers.SerializeLicense` | flights/management/commands/export_static.py:335-343 | the flag, type, days remaining and status are copied; the expiration is None iff it is absent, otherwise its ISO text |
| `Serializers.LicenseRoundTrip` | flights/management/commands/export_static.py:335-343 | the licence JSON loses nothing |

## Left out

- Database access (`filter`, `aggregate`, `annotate`, `select_related`,
  `prefetch_related`), the clock (`datetime.now()`, `date.today()`), CSV
  reading, `float()` parsing of coordinates (a function parameter
  `parse`), `bulk_create`, the deletion of existing airports, `exit(1)`,
  template rendering, directory creation, JSON file writes and asset
  copying: I/O around the computations.
- `haversine_distance` and each route's `distance` field in the export:
  floating-point trigonometry.
- Floating-point sums and the exact behaviour of `round(x, 1)`: hours are
  exact tenths, percentages exact reals.
- Years outside 1 to 9999 and Python's `OverflowError` on dates: the
  calendar is the proleptic Gregorian calendar over all integer years.
- Ground sessions, simulator sessions and licences as inputs: no modelled
  computation reads them. `check_license_status` and the people and
  progression statistics the export imports are not part of this model.
- Views, URLs and admin registrations.
- DateFormat.MonthLabel: years below 1000 are written zero-padded to four
  digits; the C library behind Python's `strftime('%Y')` may not pad them
  (glibc does not).
- Default arguments (`currency_type='day'`, `months=12`, `limit=10`) are
  not modelled: every parameter is passed explicitly.
- Statistics.RecentFlights: `limit` is a `nat`; the error a negative
  queryset slice raises is not modelled (every caller passes 10).
- Non-negative columns: the hour and landing columns are `DecimalField`
  and `IntegerField` with no validator, so the database accepts negative
  values; the model types them as `nat` and assumes they are not negative.
  The properties listed next hold only under that assumption.
- Statistics.GetTotalTimes: day + night landings ≤ total landings assumes
  non-negative landing columns.
- Statistics.XcPicOnlyNeedsPic: the `xc_time > 0` filter changes nothing
  only on non-negative cross-country time (a flight with negative
  cross-country time and PIC time would count without the filter).
- Statistics.ClassSharesAddUp: each share lies in 0..100 only when flight
  times are non-negative.
- Currency.ExpiryUnique: the single crossing of the running count (and
  `Currency.IsExpiry`) relies on non-negative landing counts.
- Logbook.TotalWindowMonotone: a later window start never raises the sum
  only when the summed column is non-negative.
- Sequences.SortBy: the sort is a stable insertion sort, as Python's
  `sorted` and the database's `order_by` with ties are assumed to be; its
  stability is not stated as a proved property.
- Currency.CheckMedicalStatus: states the bucketing over an abstract
  issued-medical record. The source's actual lookup names fields the
  `Medical` model lacks, so as written it always reports "none" (see
  above).
- Leaderboards.PassengerCounts: the per-flight count is stated under the
  assumption that a passenger appears at most once on a flight, which the
  many-to-many link guarantees.
