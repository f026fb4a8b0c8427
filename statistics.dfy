/** The dashboard statistics over a pilot's flights: category totals,
    progress toward the commercial (14 CFR 61.129(a)) and instrument
    (14 CFR 61.65(d)) minimums, the trailing monthly series, the cumulative
    series, the most recent flights, and the per-class and per-type
    groupings. Hours are tenths, so the dashboard's rounding to one decimal
    place leaves them unchanged; `now` is a parameter. */
module Statistics {
  import opened Wrappers
  import opened Calendar
  import opened Sequences
  import opened Logbook
  import opened DateFormat

  // ---------------------------------------------------------------------
  // Category totals

  datatype TotalTimes = TotalTimes(
    totalTime: Tenths,
    picTime: Tenths,
    sicTime: Tenths,
    dualTime: Tenths,
    xcTime: Tenths,
    dayTime: Tenths,
    nightTime: Tenths,
    actualInstrument: Tenths,
    simulatedInstrument: Tenths,
    dayLandings: nat,
    nightLandings: nat,
    totalLandings: nat)

  /** Every landing one flight logs: day and night, touch-and-go and full stop. */
  function AllLandings(f: Flight): int {
    f.dayLandings + f.dayFullstopLandings + f.nightLandings + f.nightFullstopLandings
  }

  /** The sum of each time column over all flights, and the landing counts.
      The landing total adds the four per-column sums, which is the same as
      adding up every flight's landings. */
  function GetTotalTimes(fs: seq<Flight>): (r: TotalTimes)
    ensures r.totalLandings == SumOf(fs, AllLandings)
    ensures r.dayLandings + r.nightLandings <= r.totalLandings
    ensures fs == [] ==> r == TotalTimes(0, 0, 0, 0, 0, 0, 0, 0, 0, 0, 0, 0)
  {
    LandingsPerFlight(fs);
    TotalTimes(
      Total(fs, FlightTime, Always),
      Total(fs, PicTime, Always),
      Total(fs, SicTime, Always),
      Total(fs, DualReceived, Always),
      Total(fs, XcTime, Always),
      Total(fs, DayTime, Always),
      Total(fs, NightTime, Always),
      Total(fs, ActualInstrument, Always),
      Total(fs, SimulatedInstrument, Always),
      Total(fs, DayLandings, Always),
      Total(fs, NightLandings, Always),
      Total(fs, DayLandings, Always) + Total(fs, DayFullstopLandings, Always) +
      Total(fs, NightLandings, Always) + Total(fs, NightFullstopLandings, Always))
  }

  lemma {:induction false} LandingsPerFlight(fs: seq<Flight>)
    ensures SumOf(fs, AllLandings) ==
      Total(fs, DayLandings, Always) + Total(fs, DayFullstopLandings, Always) +
      Total(fs, NightLandings, Always) + Total(fs, NightFullstopLandings, Always)
    decreases |fs|
  {
    if fs != [] {
      var init, last := fs[..|fs| - 1], fs[|fs| - 1];
      LandingsPerFlight(init);
      assert fs == init + [last];
      TotalSnoc(init, last, DayLandings, Always);
      TotalSnoc(init, last, DayFullstopLandings, Always);
      TotalSnoc(init, last, NightLandings, Always);
      TotalSnoc(init, last, NightFullstopLandings, Always);
    }
  }

  /** The totals of two logs together are the sums of their totals. */
  lemma TotalTimesAppend(a: seq<Flight>, b: seq<Flight>)
    ensures var ta, tb, t := GetTotalTimes(a), GetTotalTimes(b), GetTotalTimes(a + b);
      t.totalTime == ta.totalTime + tb.totalTime && t.picTime == ta.picTime + tb.picTime &&
      t.dualTime == ta.dualTime + tb.dualTime && t.xcTime == ta.xcTime + tb.xcTime &&
      t.totalLandings == ta.totalLandings + tb.totalLandings
  {
    TotalAppend(a, b, FlightTime, Always);
    TotalAppend(a, b, PicTime, Always);
    TotalAppend(a, b, DualReceived, Always);
    TotalAppend(a, b, XcTime, Always);
    SumOfAppend(a, b, AllLandings);
  }

  /** The totals do not depend on the order the flights come in. */
  lemma TotalTimesPermutation(a: seq<Flight>, b: seq<Flight>)
    requires multiset(a) == multiset(b)
    ensures GetTotalTimes(a) == GetTotalTimes(b)
  {
    TotalPermutation(a, b, FlightTime, Always);
    TotalPermutation(a, b, PicTime, Always);
    TotalPermutation(a, b, SicTime, Always);
    TotalPermutation(a, b, DualReceived, Always);
    TotalPermutation(a, b, XcTime, Always);
    TotalPermutation(a, b, DayTime, Always);
    TotalPermutation(a, b, NightTime, Always);
    TotalPermutation(a, b, ActualInstrument, Always);
    TotalPermutation(a, b, SimulatedInstrument, Always);
    TotalPermutation(a, b, DayLandings, Always);
    TotalPermutation(a, b, DayFullstopLandings, Always);
    TotalPermutation(a, b, NightLandings, Always);
    TotalPermutation(a, b, NightFullstopLandings, Always);
  }

  datatype InstrumentTimes = InstrumentTimes(actual: Tenths, simulated: Tenths, total: Tenths)

  /** Instrument time of one flight, actual and simulated together. */
  function InstrumentTime(f: Flight): int {
    f.actualInstrument + f.simulatedInstrument
  }

  /** Actual and simulated instrument time over all flights. */
  function GetInstrumentBreakdown(fs: seq<Flight>): (r: InstrumentTimes)
    ensures r.total == r.actual + r.simulated
    ensures r.total == SumOf(fs, InstrumentTime)
    ensures r.actual == GetTotalTimes(fs).actualInstrument
    ensures r.simulated == GetTotalTimes(fs).simulatedInstrument
  {
    SumOfAdd(fs, AmountOf(ActualInstrument, Always), AmountOf(SimulatedInstrument, Always), InstrumentTime);
    var actual := Total(fs, ActualInstrument, Always);
    var simulated := Total(fs, SimulatedInstrument, Always);
    InstrumentTimes(actual, simulated, actual + simulated)
  }

  // ---------------------------------------------------------------------
  // Cross-country PIC time and single-engine time

  /** Cross-country time summed over the flights with both cross-country
      and PIC time. */
  function XcPicTime(fs: seq<Flight>): (r: Tenths)
    ensures r <= GetTotalTimes(fs).xcTime
  {
    TotalBelowAll(fs, XcTime, XcAndPic);
    Total(fs, XcTime, XcAndPic)
  }

  /** The `xc_time > 0` filter changes nothing: a flight without
      cross-country time adds none. What counts is PIC time. */
  lemma XcPicOnlyNeedsPic(fs: seq<Flight>)
    ensures XcPicTime(fs) == Total(fs, XcTime, Positive(PicTime))
  {
    SumOfCongruent(fs, AmountOf(XcTime, XcAndPic), AmountOf(XcTime, Positive(PicTime)));
  }

  /** Flying without PIC time never adds cross-country PIC time. */
  lemma XcPicNeedsPicTime(fs: seq<Flight>, f: Flight)
    requires f.picTime == 0
    ensures XcPicTime(fs + [f]) == XcPicTime(fs)
  {
    TotalSnoc(fs, f, XcTime, XcAndPic);
  }

  /** Flight time in single-engine-land planes. */
  function SelTotalHours(fs: seq<Flight>): (r: Tenths)
    ensures r <= GetTotalTimes(fs).totalTime
  {
    TotalBelowAll(fs, FlightTime, OfClass(SEL));
    Total(fs, FlightTime, OfClass(SEL))
  }

  /** Single- and multi-engine time together make up all flight time. */
  lemma ClassHoursPartition(fs: seq<Flight>)
    ensures SelTotalHours(fs) + Total(fs, FlightTime, OfClass(MEL)) == GetTotalTimes(fs).totalTime
  {
    SumOfAdd(fs, AmountOf(FlightTime, OfClass(SEL)), AmountOf(FlightTime, OfClass(MEL)), AmountOf(FlightTime, Always));
  }

  // ---------------------------------------------------------------------
  // Progress toward the minimums

  datatype Progress = Progress(current: Tenths, required: Tenths, remaining: Tenths, percentage: real)

  /** How far `current` is toward `required`: what is still missing, and
      the share reached, capped at 100 percent. */
  function ProgressToward(current: Tenths, required: Tenths): (p: Progress)
    requires required > 0
    ensures p.current == current && p.required == required
    ensures p.remaining == 0 <==> current >= required
    ensures current < required ==> current + p.remaining == required
    ensures 0.0 <= p.percentage <= 100.0
    ensures p.percentage == 100.0 <==> current >= required
    ensures current < required ==> p.percentage * required as real == 100.0 * current as real
  {
    var remaining := if required > current then required - current else 0;
    var ratio := current as real / required as real * 100.0;
    assert ratio * required as real == 100.0 * current as real;
    Progress(current, required, remaining, if ratio < 100.0 then ratio else 100.0)
  }

  /** More progress never shows a smaller percentage or more remaining. */
  lemma ProgressMonotone(a: Tenths, b: Tenths, required: Tenths)
    requires required > 0 && a <= b
    ensures ProgressToward(b, required).remaining <= ProgressToward(a, required).remaining
    ensures ProgressToward(a, required).percentage <= ProgressToward(b, required).percentage
  {
    var r := required as real;
    assert a as real / r <= b as real / r;
  }

  /** Commercial minimums: 250 hours total, 100 hours PIC, 50 hours
      cross-country PIC, in tenths. */
  const CommercialTotalRequired: Tenths := 2500
  const CommercialPicRequired: Tenths := 1000
  const XcPicRequired: Tenths := 500

  datatype CommercialProgress = CommercialProgress(totalTime: Progress, picTime: Progress, xcPicTime: Progress)

  function GetCommercialProgress(fs: seq<Flight>): (r: CommercialProgress)
    ensures r.totalTime.current == GetTotalTimes(fs).totalTime && r.totalTime.required == 2500
    ensures r.picTime.current == GetTotalTimes(fs).picTime && r.picTime.required == 1000
    ensures r.xcPicTime.current == XcPicTime(fs) && r.xcPicTime.required == 500
    ensures r.totalTime == ProgressToward(GetTotalTimes(fs).totalTime, 2500)
    ensures r.picTime == ProgressToward(GetTotalTimes(fs).picTime, 1000)
    ensures r.xcPicTime == ProgressToward(XcPicTime(fs), 500)
  {
    var totals := GetTotalTimes(fs);
    CommercialProgress(
      ProgressToward(totals.totalTime, CommercialTotalRequired),
      ProgressToward(totals.picTime, CommercialPicRequired),
      ProgressToward(XcPicTime(fs), XcPicRequired))
  }

  /** Nothing remains on any of the three lines exactly when the log meets
      all three minimums. */
  lemma CommercialComplete(fs: seq<Flight>)
    ensures var r := GetCommercialProgress(fs);
      (r.totalTime.remaining == 0 && r.picTime.remaining == 0 && r.xcPicTime.remaining == 0) <==>
      (Total(fs, FlightTime, Always) >= 2500 && Total(fs, PicTime, Always) >= 1000 &&
       Total(fs, XcTime, XcAndPic) >= 500)
  {
  }

  /** Instrument rating minimums: 40 hours of instrument time of which at
      most 20 may be simulated, and 50 hours cross-country PIC. */
  const InstrumentRequired: Tenths := 400
  const SimulatedCap: Tenths := 200

  datatype InstrumentRatingProgress = InstrumentRatingProgress(
    actual: Tenths,
    simulated: Tenths,
    creditableSimulated: Tenths,
    creditableTotal: Tenths,
    remaining: Tenths,
    percentage: real,
    xcPicTime: Tenths,
    xcPicRequired: Tenths,
    xcPicRemaining: Tenths,
    xcPicPercentage: real)

  function GetInstrumentRatingProgress(fs: seq<Flight>): (r: InstrumentRatingProgress)
    ensures r.actual == GetInstrumentBreakdown(fs).actual
    ensures r.simulated == GetInstrumentBreakdown(fs).simulated
    ensures r.creditableSimulated <= r.simulated && r.creditableSimulated <= 200
    ensures r.creditableSimulated == r.simulated || r.creditableSimulated == 200
    ensures r.creditableTotal == r.actual + r.creditableSimulated
    ensures r.creditableTotal <= GetInstrumentBreakdown(fs).total
    ensures r.remaining == 0 <==> r.creditableTotal >= 400
    ensures r.creditableTotal < 400 ==> r.creditableTotal + r.remaining == 400
    ensures r.xcPicTime == XcPicTime(fs) && r.xcPicRequired == 500
    ensures r.xcPicRemaining == 0 <==> r.xcPicTime >= 500
    ensures r.remaining == ProgressToward(r.creditableTotal, 400).remaining
    ensures r.percentage == ProgressToward(r.creditableTotal, 400).percentage
    ensures r.xcPicRemaining == ProgressToward(r.xcPicTime, 500).remaining
    ensures r.xcPicPercentage == ProgressToward(r.xcPicTime, 500).percentage
  {
    var breakdown := GetInstrumentBreakdown(fs);
    var creditableSimulated := if breakdown.simulated < SimulatedCap then breakdown.simulated else SimulatedCap;
    var creditableTotal := breakdown.actual + creditableSimulated;
    var instrument := ProgressToward(creditableTotal, InstrumentRequired);
    var xc := ProgressToward(XcPicTime(fs), XcPicRequired);
    InstrumentRatingProgress(
      breakdown.actual, breakdown.simulated, creditableSimulated, creditableTotal,
      instrument.remaining, instrument.percentage,
      xc.current, XcPicRequired, xc.remaining, xc.percentage)
  }

  /** Simulated time alone cannot complete the instrument time: at least 20
      hours of it must be actual instrument time. */
  lemma InstrumentNeedsActualTime(fs: seq<Flight>)
    requires GetInstrumentRatingProgress(fs).remaining == 0
    ensures Total(fs, ActualInstrument, Always) >= 200
  {
  }

  /** Once 20 hours are simulated, more simulated time changes nothing. */
  lemma SimulatedBeyondCapIgnored(fs: seq<Flight>, f: Flight)
    requires Total(fs, SimulatedInstrument, Always) >= 200 && f.actualInstrument == 0
    ensures GetInstrumentRatingProgress(fs + [f]).creditableTotal == GetInstrumentRatingProgress(fs).creditableTotal
  {
    TotalSnoc(fs, f, ActualInstrument, Always);
    TotalSnoc(fs, f, SimulatedInstrument, Always);
  }

  // ---------------------------------------------------------------------
  // Trailing monthly series

  datatype MonthHours = MonthHours(month: string, hours: Tenths)

  /** Every flight of the month with index `k` falls on or after the first
      of any month up to `k`. */
  lemma MonthInWindow(fs: seq<Flight>, start: Date, k: int)
    requires start.day == 1 && MonthIndex(start) <= k
    ensures forall f | f in fs && Holds(InMonth(k), f) :: Holds(OnOrAfter(Ordinal(start)), f)
  {
    forall f | f in fs && Holds(InMonth(k), f) ensures Holds(OnOrAfter(Ordinal(start)), f) {
      OnOrAfterFirstOfMonth(start, f.date);
    }
  }

  /** `k` is the month of `d`, and `name` the "%b %Y" label of that month. */
  predicate LabelsMonth(name: string, d: Date, k: int) {
    MonthIndex(d) == k && name == MonthLabel(d.year, d.month)
  }

  /** One entry per month for the `months` calendar months ending with the
      month of `now`, oldest first, each with that month's flight time
      (zero for a month without flights); `firsts` holds the first day of
      each month labelled. */
  method MonthlyBreakdown(flights: seq<Flight>, now: Date, months: int) returns (r: seq<MonthHours>, ghost firsts: seq<Date>)
    ensures |r| == |firsts| == if months > 0 then months else 0
    ensures forall i :: 0 <= i < |r| ==> LabelsMonth(r[i].month, firsts[i], MonthIndex(now) - months + 1 + i)
    ensures forall i :: 0 <= i < |r| ==> r[i].hours == Total(flights, FlightTime, InMonth(MonthIndex(now) - months + 1 + i))
  {
    var start := ReplaceDay(AddMonths(now, -(months - 1)), 1);
    var recent := FlightsSince(flights, start);
    r, firsts := MonthSeries(recent, start, MonthIndex(now) - months + 1, months);
  }

  /** The entries for `months` months from the month of `start` (index
      `lo`), read from `recent`, stepping one calendar month at a time. */
  method MonthSeries(recent: seq<Flight>, start: Date, lo: int, months: int) returns (r: seq<MonthHours>, ghost firsts: seq<Date>)
    requires start.day == 1 && MonthIndex(start) == lo
    ensures |r| == |firsts| == if months > 0 then months else 0
    ensures forall j :: 0 <= j < |r| ==> LabelsMonth(r[j].month, firsts[j], lo + j)
    ensures forall j :: 0 <= j < |r| ==> r[j].hours == Total(recent, FlightTime, InMonth(lo + j))
  {
    r, firsts := [], [];
    var current := start;
    var i := 0;
    while i < months
      invariant 0 <= i && (months > 0 ==> i <= months) && (months <= 0 ==> i == 0)
      invariant current.day == 1 && MonthIndex(current) == lo + i
      invariant |r| == |firsts| == i
      invariant forall j :: 0 <= j < i ==> LabelsMonth(r[j].month, firsts[j], lo + j)
      invariant forall j :: 0 <= j < i ==> r[j].hours == Total(recent, FlightTime, InMonth(lo + j))
    {
      r := r + [MonthHours(MonthLabel(current.year, current.month), Total(recent, FlightTime, InMonth(MonthIndex(current))))];
      firsts := firsts + [current];
      current := AddMonths(current, 1);
      i := i + 1;
    }
  }

  /** `date__gte=start`: the flights on or after `start`. When `start` is
      the first of a month, they hold all the flight time of that month and
      of every later one. */
  method FlightsSince(flights: seq<Flight>, start: Date) returns (recent: seq<Flight>)
    requires start.day == 1
    ensures recent == Where(flights, OnOrAfter(Ordinal(start)))
    ensures forall k | MonthIndex(start) <= k ::
      Total(recent, FlightTime, InMonth(k)) == Total(flights, FlightTime, InMonth(k))
  {
    recent := Where(flights, OnOrAfter(Ordinal(start)));
    forall k | MonthIndex(start) <= k
      ensures Total(recent, FlightTime, InMonth(k)) == Total(flights, FlightTime, InMonth(k))
    {
      MonthInWindow(flights, start, k);
      TotalWhereImplied(flights, OnOrAfter(Ordinal(start)), FlightTime, InMonth(k));
    }
  }

  /** The month conditions for `n` consecutive months from month `lo`. */
  function MonthConditions(lo: int, n: nat): (conds: seq<Condition>)
    ensures |conds| == n && forall i :: 0 <= i < n ==> conds[i] == InMonth(lo + i)
  {
    if n == 0 then [] else MonthConditions(lo, n - 1) + [InMonth(lo + n - 1)]
  }

  function EntryHours(e: MonthHours): int {
    e.hours
  }

  /** The flight time of `n` consecutive months from `lo`, added up. */
  function SeriesHours(fs: seq<Flight>, lo: int, n: nat): int {
    if n == 0 then 0 else SeriesHours(fs, lo, n - 1) + Total(fs, FlightTime, InMonth(lo + n - 1))
  }

  /** The hours of a series of entries add up to `SeriesHours`. */
  lemma {:induction false} SeriesSum(fs: seq<Flight>, lo: int, r: seq<MonthHours>)
    requires forall i :: 0 <= i < |r| ==> r[i].hours == Total(fs, FlightTime, InMonth(lo + i))
    ensures SumOf(r, EntryHours) == SeriesHours(fs, lo, |r|)
    decreases |r|
  {
    if r != [] {
      SeriesSum(fs, lo, r[..|r| - 1]);
    }
  }

  lemma {:induction false} SeriesIsSumTotals(fs: seq<Flight>, lo: int, n: nat)
    ensures SeriesHours(fs, lo, n) == SumTotals(fs, FlightTime, MonthConditions(lo, n))
    decreases n
  {
    if n > 0 {
      SeriesIsSumTotals(fs, lo, n - 1);
      assert MonthConditions(lo, n)[..n - 1] == MonthConditions(lo, n - 1);
    }
  }

  /** When every flight falls in one of `n` consecutive months, the
      series over those months adds up to all the flight time. */
  lemma SeriesCoversMonths(fs: seq<Flight>, lo: int, n: nat)
    requires forall f | f in fs :: lo <= MonthIndex(f.date) < lo + n
    ensures SeriesHours(fs, lo, n) == Total(fs, FlightTime, Always)
  {
    var conds := MonthConditions(lo, n);
    assert Partitions(conds, fs) by {
      forall f | f in fs ensures exists i :: 0 <= i < |conds| && Holds(conds[i], f) {
        assert Holds(conds[MonthIndex(f.date) - lo], f);
      }
    }
    TotalPartition(fs, FlightTime, conds);
    SeriesIsSumTotals(fs, lo, n);
  }

  /** When no flight is dated after the month of `now`, the series accounts
      for all the flight time since the first of its first month. */
  lemma SeriesCoversWindow(fs: seq<Flight>, now: Date, months: nat)
    requires months > 0
    requires forall f | f in fs :: MonthIndex(f.date) <= MonthIndex(now)
    ensures SeriesHours(fs, MonthIndex(now) - months + 1, months) ==
            Total(fs, FlightTime, OnOrAfter(Ordinal(FirstOfMonthIndex(MonthIndex(now) - months + 1))))
  {
    var lo := MonthIndex(now) - months + 1;
    var start := FirstOfMonthIndex(lo);
    var window := Where(fs, OnOrAfter(Ordinal(start)));
    WhereMembers(fs, OnOrAfter(Ordinal(start)));
    forall f | f in window ensures lo <= MonthIndex(f.date) {
      if MonthIndex(f.date) < lo {
        MonthIndexOrder(f.date, start);
      }
    }
    SeriesCoversMonths(window, lo, months);
    SeriesOnWindow(fs, start, lo, months);
    TotalWhere(fs, OnOrAfter(Ordinal(start)), FlightTime);
  }

  lemma {:induction false} SeriesOnWindow(fs: seq<Flight>, start: Date, lo: int, n: nat)
    requires start.day == 1 && MonthIndex(start) == lo
    ensures SeriesHours(Where(fs, OnOrAfter(Ordinal(start))), lo, n) == SeriesHours(fs, lo, n)
    decreases n
  {
    if n > 0 {
      SeriesOnWindow(fs, start, lo, n - 1);
      MonthInWindow(fs, start, lo + n - 1);
      TotalWhereImplied(fs, OnOrAfter(Ordinal(start)), FlightTime, InMonth(lo + n - 1));
    }
  }

  // ---------------------------------------------------------------------
  // Cumulative series

  datatype CumulativePoint = CumulativePoint(date: string, total: Tenths, pic: Tenths, dual: Tenths, instrument: Tenths)

  /** `p` is the point of the `i`-th flight of `ordered`: that flight's date
      and the totals of the flights up to and including it. */
  predicate PointAt(p: CumulativePoint, ordered: seq<Flight>, i: int)
    requires 0 <= i < |ordered|
  {
    p.date == IsoFormat(ordered[i].date) &&
    p.total == Total(ordered[..i + 1], FlightTime, Always) &&
    p.pic == Total(ordered[..i + 1], PicTime, Always) &&
    p.dual == Total(ordered[..i + 1], DualReceived, Always) &&
    p.instrument == Total(ordered[..i + 1], ActualInstrument, Always) + Total(ordered[..i + 1], SimulatedInstrument, Always)
  }

  /** `points` is the cumulative series of `flights`: one point per flight,
      oldest first. */
  predicate IsCumulativeSeries(points: seq<CumulativePoint>, flights: seq<Flight>) {
    |points| == |flights| &&
    forall i :: 0 <= i < |points| ==> PointAt(points[i], ByDateAscending(flights), i)
  }

  /** One point per flight, oldest first, each holding the running totals
      up to and including that flight. */
  method CumulativeTimeData(flights: seq<Flight>) returns (points: seq<CumulativePoint>)
    ensures IsCumulativeSeries(points, flights)
  {
    var ordered := ByDateAscending(flights);
    points := RunningTotals(ordered);
  }

  /** The loop of `get_cumulative_time_data` over the date-ordered flights. */
  method RunningTotals(ordered: seq<Flight>) returns (points: seq<CumulativePoint>)
    ensures |points| == |ordered|
    ensures forall j :: 0 <= j < |points| ==> PointAt(points[j], ordered, j)
  {
    points := [];
    var total, pic, dual, instrument := 0, 0, 0, 0;
    var i := 0;
    while i < |ordered|
      invariant 0 <= i <= |ordered| && |points| == i
      invariant total == Total(ordered[..i], FlightTime, Always)
      invariant pic == Total(ordered[..i], PicTime, Always)
      invariant dual == Total(ordered[..i], DualReceived, Always)
      invariant instrument == Total(ordered[..i], ActualInstrument, Always) + Total(ordered[..i], SimulatedInstrument, Always)
      invariant forall j :: 0 <= j < i ==> PointAt(points[j], ordered, j)
    {
      var f := ordered[i];
      total := total + f.flightTime;
      pic := pic + f.picTime;
      dual := dual + f.dualReceived;
      instrument := instrument + f.actualInstrument + f.simulatedInstrument;
      RunningStep(ordered, i);
      var p := CumulativePoint(IsoFormat(f.date), total, pic, dual, instrument);
      assert PointAt(p, ordered, i);
      SeriesExtend(points, ordered, p);
      points := points + [p];
      i := i + 1;
    }
  }

  lemma SeriesExtend(points: seq<CumulativePoint>, ordered: seq<Flight>, p: CumulativePoint)
    requires |points| < |ordered|
    requires forall j :: 0 <= j < |points| ==> PointAt(points[j], ordered, j)
    requires PointAt(p, ordered, |points|)
    ensures forall j :: 0 <= j < |points| + 1 ==> PointAt((points + [p])[j], ordered, j)
  {
    forall j | 0 <= j < |points| + 1 ensures PointAt((points + [p])[j], ordered, j) {
      if j < |points| {
        assert (points + [p])[j] == points[j];
      }
    }
  }

  /** Adding the next flight's columns to the totals of a prefix gives the
      totals of the prefix one longer. */
  lemma RunningStep(ordered: seq<Flight>, i: nat)
    requires i < |ordered|
    ensures var f, done := ordered[i], ordered[..i + 1];
      Total(done, FlightTime, Always) == Total(ordered[..i], FlightTime, Always) + f.flightTime &&
      Total(done, PicTime, Always) == Total(ordered[..i], PicTime, Always) + f.picTime &&
      Total(done, DualReceived, Always) == Total(ordered[..i], DualReceived, Always) + f.dualReceived &&
      Total(done, ActualInstrument, Always) == Total(ordered[..i], ActualInstrument, Always) + f.actualInstrument &&
      Total(done, SimulatedInstrument, Always) == Total(ordered[..i], SimulatedInstrument, Always) + f.simulatedInstrument
  {
    var f := ordered[i];
    assert ordered[..i + 1] == ordered[..i] + [f];
    TotalSnoc(ordered[..i], f, FlightTime, Always);
    TotalSnoc(ordered[..i], f, PicTime, Always);
    TotalSnoc(ordered[..i], f, DualReceived, Always);
    TotalSnoc(ordered[..i], f, ActualInstrument, Always);
    TotalSnoc(ordered[..i], f, SimulatedInstrument, Always);
  }

  /** The series never goes down and its dates run oldest first. */
  lemma CumulativeSeries(points: seq<CumulativePoint>, flights: seq<Flight>, i: nat, j: nat)
    requires IsCumulativeSeries(points, flights)
    requires i <= j < |flights|
    ensures points[i].total <= points[j].total && points[i].pic <= points[j].pic
    ensures points[i].dual <= points[j].dual && points[i].instrument <= points[j].instrument
    ensures Ordinal(ByDateAscending(flights)[i].date) <= Ordinal(ByDateAscending(flights)[j].date)
  {
    var ordered := ByDateAscending(flights);
    PointTotals(points, flights, i);
    PointTotals(points, flights, j);
    PrefixTotalsMonotone(ordered, i, j);
    AscendingDates(flights, i, j);
  }

  lemma AscendingDates(flights: seq<Flight>, i: nat, j: nat)
    requires i <= j < |flights|
    ensures Ordinal(ByDateAscending(flights)[i].date) <= Ordinal(ByDateAscending(flights)[j].date)
  {
    var ordered := ByDateAscending(flights);
    var a, b := ordered[i], ordered[j];
    assert Ordinal(a.date) <= Ordinal(b.date);
  }

  /** Every running total of a longer prefix is at least that of a shorter one. */
  lemma PrefixTotalsMonotone(s: seq<Flight>, i: nat, j: nat)
    requires i <= j < |s|
    ensures var short, long := s[..i + 1], s[..j + 1];
      Total(short, FlightTime, Always) <= Total(long, FlightTime, Always) &&
      Total(short, PicTime, Always) <= Total(long, PicTime, Always) &&
      Total(short, DualReceived, Always) <= Total(long, DualReceived, Always) &&
      Total(short, ActualInstrument, Always) + Total(short, SimulatedInstrument, Always) <=
        Total(long, ActualInstrument, Always) + Total(long, SimulatedInstrument, Always)
  {
    PrefixTotalMonotone(s, i, j, FlightTime);
    PrefixTotalMonotone(s, i, j, PicTime);
    PrefixTotalMonotone(s, i, j, DualReceived);
    PrefixTotalMonotone(s, i, j, ActualInstrument);
    PrefixTotalMonotone(s, i, j, SimulatedInstrument);
  }

  /** The totals a point of the series holds. */
  lemma PointTotals(points: seq<CumulativePoint>, flights: seq<Flight>, k: nat)
    requires IsCumulativeSeries(points, flights) && k < |flights|
    ensures var done := ByDateAscending(flights)[..k + 1];
      points[k].total == Total(done, FlightTime, Always) &&
      points[k].pic == Total(done, PicTime, Always) &&
      points[k].dual == Total(done, DualReceived, Always) &&
      points[k].instrument == Total(done, ActualInstrument, Always) + Total(done, SimulatedInstrument, Always)
  {
    assert PointAt(points[k], ByDateAscending(flights), k);
  }

  lemma PrefixTotalMonotone(s: seq<Flight>, i: nat, j: nat, fld: Field)
    requires i <= j < |s|
    ensures Total(s[..i + 1], fld, Always) <= Total(s[..j + 1], fld, Always)
  {
    var long := s[..j + 1];
    assert long[..i + 1] == s[..i + 1];
    TotalPrefix(long, i + 1, fld, Always);
  }

  /** The last point of the series holds the log's totals. */
  lemma CumulativeEndsAtTotals(points: seq<CumulativePoint>, flights: seq<Flight>)
    requires IsCumulativeSeries(points, flights)
    requires flights != []
    ensures var p := points[|points| - 1];
      p.total == GetTotalTimes(flights).totalTime && p.pic == GetTotalTimes(flights).picTime &&
      p.dual == GetTotalTimes(flights).dualTime && p.instrument == GetInstrumentBreakdown(flights).total
  {
    var ordered := ByDateAscending(flights);
    PointTotals(points, flights, |flights| - 1);
    assert ordered[..|flights|] == ordered;
    TotalTimesPermutation(ordered, flights);
  }

  // ---------------------------------------------------------------------
  // Most recent flights and days since the last one

  datatype RecentFlight = RecentFlight(flight: Flight, totalDayLandings: nat, totalNightLandings: nat)

  /** The `limit` most recent flights, newest first, each with its day and
      night landings (touch-and-go plus full stop) added up. */
  method RecentFlights(flights: seq<Flight>, limit: nat) returns (r: seq<RecentFlight>)
    ensures |r| == if limit < |flights| then limit else |flights|
    ensures forall i :: 0 <= i < |r| ==> r[i].flight == ByDateDescending(flights)[i]
    ensures forall i :: 0 <= i < |r| ==>
      r[i].totalDayLandings == r[i].flight.dayLandings + r[i].flight.dayFullstopLandings &&
      r[i].totalNightLandings == r[i].flight.nightLandings + r[i].flight.nightFullstopLandings
  {
    var ordered := Slice(ByDateDescending(flights), limit);
    r := [];
    var i := 0;
    while i < |ordered|
      invariant 0 <= i <= |ordered| && |r| == i
      invariant forall j :: 0 <= j < i ==> r[j].flight == ordered[j]
      invariant forall j :: 0 <= j < i ==>
        r[j].totalDayLandings == r[j].flight.dayLandings + r[j].flight.dayFullstopLandings &&
        r[j].totalNightLandings == r[j].flight.nightLandings + r[j].flight.nightFullstopLandings
    {
      var f := ordered[i];
      r := r + [RecentFlight(f, f.dayLandings + f.dayFullstopLandings, f.nightLandings + f.nightFullstopLandings)];
      i := i + 1;
    }
  }

  /** No flight left out of the first `n` newest first is newer than any
      flight kept. */
  lemma MostRecentKept(flights: seq<Flight>, n: nat)
    requires n <= |flights|
    ensures forall g, i | g in multiset(flights) - multiset(ByDateDescending(flights)[..n]) && 0 <= i < n ::
      Ordinal(g.date) <= Ordinal(ByDateDescending(flights)[i].date)
  {
    TopOfRanked(ByDateDescending(flights), n, FlownOn);
  }

  function FlownOn(f: Flight): int { Ordinal(f.date) }

  /** Days from the most recent flight to `today`, or None without flights. */
  function DaysSinceLastFlight(flights: seq<Flight>, today: Date): (r: Option<int>)
    ensures r.None? <==> flights == []
    ensures r.Some? ==> exists f :: f in flights && r.value == DaysBetween(f.date, today)
    ensures r.Some? ==> forall f | f in flights :: r.value <= DaysBetween(f.date, today)
  {
    if flights == [] then None
    else
      var last := ByDateDescending(flights)[0];
      assert last in multiset(flights);
      assert forall f | f in flights :: Ordinal(f.date) <= Ordinal(last.date) by {
        forall f | f in flights ensures Ordinal(f.date) <= Ordinal(last.date) {
          assert f in multiset(ByDateDescending(flights));
        }
      }
      Some(DaysBetween(last.date, today))
  }

  // ---------------------------------------------------------------------
  // Breakdown by plane class and by aircraft type

  datatype ClassEntry = ClassEntry(hours: Tenths, flightCount: nat, percentage: real)

  /** Share of `hours` in `total`, in percent; zero when there is no time. */
  function Percent(hours: Tenths, total: Tenths): real {
    if total > 0 then hours as real / total as real * 100.0 else 0.0
  }

  /** One entry per plane class that has flights: its hours, its number of
      flights and its share of the hours of all classes. */
  function ClassBreakdown(fs: seq<Flight>): (m: map<PlaneClass, ClassEntry>)
    ensures forall pc: PlaneClass :: pc in m <==> exists f :: f in fs && f.plane.planeClass == pc
    ensures forall pc | pc in m ::
      m[pc].hours == Total(fs, FlightTime, OfClass(pc)) && m[pc].flightCount == Count(fs, OfClass(pc))
    ensures forall pc | pc in m :: m[pc].percentage == Percent(m[pc].hours, GetTotalTimes(fs).totalTime)
  {
    var total := Total(fs, FlightTime, OfClass(SEL)) + Total(fs, FlightTime, OfClass(MEL));
    ClassHoursPartition(fs);
    CountPositive(fs, OfClass(SEL));
    CountPositive(fs, OfClass(MEL));
    map pc: PlaneClass | Count(fs, OfClass(pc)) > 0 ::
      ClassEntry(Total(fs, FlightTime, OfClass(pc)), Count(fs, OfClass(pc)), Percent(Total(fs, FlightTime, OfClass(pc)), total))
  }

  /** Each share lies between 0 and 100 percent, and with any flight time
      the shares of the classes flown add up to 100. */
  lemma ClassSharesAddUp(fs: seq<Flight>)
    ensures forall pc | pc in ClassBreakdown(fs) :: 0.0 <= ClassBreakdown(fs)[pc].percentage <= 100.0
    ensures GetTotalTimes(fs).totalTime > 0 ==>
      (if SEL in ClassBreakdown(fs) then ClassBreakdown(fs)[SEL].percentage else 0.0) +
      (if MEL in ClassBreakdown(fs) then ClassBreakdown(fs)[MEL].percentage else 0.0) == 100.0
  {
    var m, total := ClassBreakdown(fs), GetTotalTimes(fs).totalTime;
    ClassHoursPartition(fs);
    forall pc | pc in m ensures 0.0 <= m[pc].percentage <= 100.0 {
      TotalBelowAll(fs, FlightTime, OfClass(pc));
      PercentBounds(m[pc].hours, total);
    }
    if total > 0 {
      var sel, mel := Total(fs, FlightTime, OfClass(SEL)), Total(fs, FlightTime, OfClass(MEL));
      AbsentClassHasNoHours(fs, SEL);
      AbsentClassHasNoHours(fs, MEL);
      assert (if SEL in m then m[SEL].percentage else 0.0) == Percent(sel, total);
      assert (if MEL in m then m[MEL].percentage else 0.0) == Percent(mel, total);
      PercentsAdd(sel, mel, total);
    }
  }

  lemma PercentBounds(hours: Tenths, total: Tenths)
    requires hours <= total
    ensures 0.0 <= Percent(hours, total) <= 100.0
  {
    if total > 0 {
      assert hours as real / total as real <= 1.0;
    }
  }

  lemma PercentsAdd(a: Tenths, b: Tenths, total: Tenths)
    requires total > 0 && a + b == total
    ensures Percent(a, total) + Percent(b, total) == 100.0
  {
    var t := total as real;
    var x, y := a as real / t, b as real / t;
    assert x * t == a as real && y * t == b as real;
    assert (x + y - 1.0) * t == 0.0;
  }

  lemma AbsentClassHasNoHours(fs: seq<Flight>, pc: PlaneClass)
    ensures Count(fs, OfClass(pc)) == 0 ==> Total(fs, FlightTime, OfClass(pc)) == 0
  {
    CountPositive(fs, OfClass(pc));
    if Count(fs, OfClass(pc)) == 0 {
      TotalNoneHold(fs, FlightTime, OfClass(pc));
    }
  }

  datatype TypeEntry = TypeEntry(typeCode: string, planeClass: PlaneClass, hours: Tenths, flightCount: nat)

  type TypeKey = (string, PlaneClass)

  function TypeOf(f: Flight): TypeKey {
    (f.plane.typeCode, f.plane.planeClass)
  }

  function KeyOfEntry(e: TypeEntry): TypeKey {
    (e.typeCode, e.planeClass)
  }

  function TypeEntryFor(fs: seq<Flight>, k: TypeKey): TypeEntry {
    TypeEntry(k.0, k.1, Total(fs, FlightTime, OfType(k.0, k.1)), Count(fs, OfType(k.0, k.1)))
  }

  /** The entries of the listed types, in the order listed. */
  function TypeEntries(fs: seq<Flight>, keys: seq<TypeKey>): (r: seq<TypeEntry>)
    ensures |r| == |keys|
    ensures forall i | 0 <= i < |keys| :: r[i] == TypeEntryFor(fs, keys[i])
  {
    if keys == [] then [] else TypeEntries(fs, keys[..|keys| - 1]) + [TypeEntryFor(fs, keys[|keys| - 1])]
  }

  function MostHoursFirst(e: TypeEntry): Key {
    (-(e.hours as int), 0)
  }

  /** One entry per (type, class) pair flown, with its hours and number of
      flights, most hours first. */
  function AircraftTypeStatistics(fs: seq<Flight>): (r: seq<TypeEntry>)
    ensures forall e | e in r ::
      e.hours == Total(fs, FlightTime, OfType(e.typeCode, e.planeClass)) &&
      e.flightCount == Count(fs, OfType(e.typeCode, e.planeClass)) && e.flightCount > 0
    ensures forall f | f in fs :: exists e :: e in r && KeyOfEntry(e) == TypeOf(f)
    ensures DistinctKeys(r, KeyOfEntry)
    ensures forall i, j | 0 <= i < j < |r| :: r[j].hours <= r[i].hours
  {
    var keys := FirstSeen(fs, TypeOf);
    FirstSeenKeys(fs, TypeOf);
    var entries := TypeEntries(fs, keys);
    TypeEntriesMeasure(fs, keys);
    TypeEntriesDistinct(fs, keys);
    var r := SortBy(entries, MostHoursFirst);
    DistinctKeysPermutation(entries, r, KeyOfEntry);
    SameMembers(entries, r);
    TypeEntriesCover(fs, keys, r);
    HoursDescending(r);
    r
  }

  lemma TypeEntriesCover(fs: seq<Flight>, keys: seq<TypeKey>, r: seq<TypeEntry>)
    requires forall f | f in fs :: TypeOf(f) in keys
    requires forall e | e in TypeEntries(fs, keys) :: e in r
    ensures forall f | f in fs :: exists e :: e in r && KeyOfEntry(e) == TypeOf(f)
  {
    forall f | f in fs ensures exists e :: e in r && KeyOfEntry(e) == TypeOf(f) {
      var i := IndexOf(keys, TypeOf(f));
      assert TypeEntries(fs, keys)[i] in TypeEntries(fs, keys);
    }
  }

  lemma HoursDescending(r: seq<TypeEntry>)
    requires SortedBy(r, MostHoursFirst)
    ensures forall i, j | 0 <= i < j < |r| :: r[j].hours <= r[i].hours
  {
    assert forall i, j | 0 <= i < j < |r| :: KeyLe(MostHoursFirst(r[i]), MostHoursFirst(r[j]));
  }

  /** Every listed type that was flown gets its own hours and a positive
      number of flights. */
  lemma TypeEntriesMeasure(fs: seq<Flight>, keys: seq<TypeKey>)
    requires forall k | k in keys :: exists f :: f in fs && TypeOf(f) == k
    ensures forall e | e in TypeEntries(fs, keys) ::
      e.hours == Total(fs, FlightTime, OfType(e.typeCode, e.planeClass)) &&
      e.flightCount == Count(fs, OfType(e.typeCode, e.planeClass)) && e.flightCount > 0
  {
    var entries := TypeEntries(fs, keys);
    forall e | e in entries
      ensures e.flightCount == Count(fs, OfType(e.typeCode, e.planeClass)) && e.flightCount > 0
    {
      var i :| 0 <= i < |entries| && entries[i] == e;
      assert keys[i] in keys;
      var f :| f in fs && TypeOf(f) == keys[i];
      assert Holds(OfType(e.typeCode, e.planeClass), f);
      CountPositive(fs, OfType(e.typeCode, e.planeClass));
    }
  }

  lemma TypeEntriesDistinct(fs: seq<Flight>, keys: seq<TypeKey>)
    requires forall i, j | 0 <= i < j < |keys| :: keys[i] != keys[j]
    ensures DistinctKeys(TypeEntries(fs, keys), KeyOfEntry)
  {
    var entries := TypeEntries(fs, keys);
    forall i, j | 0 <= i < j < |entries| ensures KeyOfEntry(entries[i]) != KeyOfEntry(entries[j]) {
      assert KeyOfEntry(entries[i]) == keys[i] && KeyOfEntry(entries[j]) == keys[j];
    }
  }

  function TypeHours(e: TypeEntry): int {
    e.hours
  }

  function TypeCondition(k: TypeKey): Condition {
    OfType(k.0, k.1)
  }

  /** A flight satisfies the condition of a type exactly when it is of that type. */
  lemma TypeConditionExact()
    ensures forall f, k :: Holds(TypeCondition(k), f) <==> TypeOf(f) == k
  {
  }

  /** The hours of all aircraft types together are the pilot's total
      flight time. */
  lemma TypeHoursAddUp(fs: seq<Flight>)
    ensures SumOf(AircraftTypeStatistics(fs), TypeHours) == GetTotalTimes(fs).totalTime
  {
    var keys := FirstSeen(fs, TypeOf);
    FirstSeenKeys(fs, TypeOf);
    var entries := TypeEntries(fs, keys);
    SumOfPermutation(AircraftTypeStatistics(fs), entries, TypeHours);
    TypeEntriesSum(fs, keys);
    TypeConditionExact();
    KeyedPartition(fs, keys, TypeOf, TypeCondition);
    TotalPartition(fs, FlightTime, ConditionsOf(keys, TypeCondition));
  }

  lemma {:induction false} TypeEntriesSum(fs: seq<Flight>, keys: seq<TypeKey>)
    ensures SumOf(TypeEntries(fs, keys), TypeHours) == SumTotals(fs, FlightTime, ConditionsOf(keys, TypeCondition))
    decreases |keys|
  {
    if keys != [] {
      var init := keys[..|keys| - 1];
      TypeEntriesSum(fs, init);
      var entries := TypeEntries(fs, keys);
      assert entries[..|entries| - 1] == TypeEntries(fs, init);
      assert ConditionsOf(keys, TypeCondition)[..|keys| - 1] == ConditionsOf(init, TypeCondition);
    }
  }
}
