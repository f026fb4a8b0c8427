/** Passenger-carrying currency (three takeoffs and landings in the
    preceding 90 days, day landings for day currency and full-stop night
    landings for night currency) and the status of the latest medical.

    `today` is a parameter; the flights are those of one pilot. */
module Currency {
  import opened Wrappers
  import opened Calendar
  import opened Sequences
  import opened Logbook

  /** Landings needed for currency. */
  const Required := 3
  /** Length of the look-back window, in days. */
  const WindowDays := 90

  datatype PassengerCurrency = PassengerCurrency(
    dayCurrent: bool,
    dayLandings: nat,
    dayExpiry: Option<Date>,
    nightCurrent: bool,
    nightLandings: nat,
    nightExpiry: Option<Date>)

  /** First day of the window that ends today. */
  function WindowStart(today: Date): int {
    Ordinal(AddDays(today, -WindowDays))
  }

  /** Landings of kind `fld` on the flights dated in the window ending today. */
  function WindowLandings(fs: seq<Flight>, fld: Field, today: Date): nat {
    Total(fs, fld, OnOrAfter(WindowStart(today)))
  }

  /** The expiry date the landings in `fs` give, stated without any scan
      order: None when the pilot has fewer than three landings of this kind
      in all; otherwise the day `e` such that the window ending on `e` is the
      last one that still holds three landings — the 90-day window starting
      at `e - 90` holds at least three, the one starting a day later fewer. */
  ghost predicate IsExpiry(fs: seq<Flight>, fld: Field, e: Option<Date>) {
    if Total(fs, fld, Always) < Required then e.None?
    else e.Some? && IsClosingDay(fs, fld, Ordinal(e.value))
  }

  /** The 90-day window ending on day number `day` holds three landings,
      the one ending a day later does not. */
  ghost predicate IsClosingDay(fs: seq<Flight>, fld: Field, day: int) {
    Total(fs, fld, OnOrAfter(day - WindowDays)) >= Required &&
    Total(fs, fld, OnOrAfter(day - WindowDays + 1)) < Required
  }

  /** Walks the flights newest first, adding up landings of kind `fld`; the
      expiry is 90 days after the flight at which the running count first
      reaches three. */
  method ExpiryScan(ordered: seq<Flight>, fld: Field) returns (expiry: Option<Date>)
    requires NewestFirstOrder(ordered)
    ensures IsExpiry(ordered, fld, expiry)
    ensures expiry.Some? ==>
      exists k :: 0 <= k < |ordered| && Get(ordered[k], fld) > 0 &&
                  expiry.value == AddDays(ordered[k].date, WindowDays)
  {
    var count := 0;
    expiry := None;
    var i := 0;
    while i < |ordered|
      invariant 0 <= i <= |ordered|
      invariant count == Total(ordered[..i], fld, Always) < Required
      invariant expiry.None?
    {
      assert ordered[..i + 1][..i] == ordered[..i];
      count := count + Get(ordered[i], fld);
      if count >= Required {
        expiry := Some(AddDays(ordered[i].date, WindowDays));
        assert Get(ordered[i], fld) > 0;
        CrossingIsExpiry(ordered, fld, i);
        return;
      }
      i := i + 1;
    }
    assert ordered[..i] == ordered;
  }

  /** Every flight up to the crossing is dated on or after it. */
  lemma CrossingLower(ordered: seq<Flight>, fld: Field, k: nat)
    requires NewestFirstOrder(ordered) && k < |ordered|
    ensures Total(ordered[..k + 1], fld, Always) <= Total(ordered, fld, OnOrAfter(Ordinal(ordered[k].date)))
  {
    var c := OnOrAfter(Ordinal(ordered[k].date));
    var head, tail := ordered[..k + 1], ordered[k + 1..];
    assert ordered == head + tail;
    TotalAppend(head, tail, fld, c);
    TotalAllHold(head, fld, c);
  }

  /** Every flight from the crossing on is dated on or before it. */
  lemma CrossingUpper(ordered: seq<Flight>, fld: Field, k: nat)
    requires NewestFirstOrder(ordered) && k < |ordered|
    ensures Total(ordered, fld, OnOrAfter(Ordinal(ordered[k].date) + 1)) <= Total(ordered[..k], fld, Always)
  {
    var c := OnOrAfter(Ordinal(ordered[k].date) + 1);
    var newer, older := ordered[..k], ordered[k..];
    assert ordered == newer + older;
    TotalAppend(newer, older, fld, c);
    TotalBelowAll(newer, fld, c);
    TotalNoneHold(older, fld, c);
  }

  /** The flight where the newest-first running count reaches three fixes
      the expiry. */
  lemma CrossingIsExpiry(ordered: seq<Flight>, fld: Field, k: nat)
    requires NewestFirstOrder(ordered) && k < |ordered|
    requires Total(ordered[..k], fld, Always) < Required <= Total(ordered[..k + 1], fld, Always)
    ensures IsExpiry(ordered, fld, Some(AddDays(ordered[k].date, WindowDays)))
  {
    CrossingLower(ordered, fld, k);
    CrossingUpper(ordered, fld, k);
    TotalBelowAll(ordered, fld, OnOrAfter(Ordinal(ordered[k].date)));
  }

  /** A window holding three landings starts before one holding fewer. */
  lemma WindowsOrdered(fs: seq<Flight>, fld: Field, x: int, y: int)
    requires Total(fs, fld, OnOrAfter(x)) >= Required > Total(fs, fld, OnOrAfter(y))
    ensures x < y
  {
    if y <= x {
      TotalWindowMonotone(fs, fld, y, x);
    }
  }

  /** The day a window of three landings closes is unique. */
  lemma ClosingDayUnique(fs: seq<Flight>, fld: Field, a: int, b: int)
    requires IsClosingDay(fs, fld, a) && IsClosingDay(fs, fld, b)
    ensures a == b
  {
    WindowsOrdered(fs, fld, a - WindowDays, b - WindowDays + 1);
    WindowsOrdered(fs, fld, b - WindowDays, a - WindowDays + 1);
  }

  /** Each kind of landing has exactly one expiry: the characterisation
      fixes the date, whatever order the scan met flights of the same day in. */
  lemma ExpiryUnique(fs: seq<Flight>, fld: Field, e1: Option<Date>, e2: Option<Date>)
    requires IsExpiry(fs, fld, e1) && IsExpiry(fs, fld, e2)
    ensures e1 == e2
  {
    if e1.Some? {
      ClosingDayUnique(fs, fld, Ordinal(e1.value), Ordinal(e2.value));
      OrdinalInjective(e1.value, e2.value);
    }
  }

  /** The expiry depends only on which flights there are, not on their order. */
  lemma ExpiryIndependentOfOrder(a: seq<Flight>, b: seq<Flight>, fld: Field, e: Option<Date>)
    requires multiset(a) == multiset(b) && IsExpiry(a, fld, e)
    ensures IsExpiry(b, fld, e)
  {
    TotalPermutation(a, b, fld, Always);
    if e.Some? {
      TotalPermutation(a, b, fld, OnOrAfter(Ordinal(e.value) - WindowDays));
      TotalPermutation(a, b, fld, OnOrAfter(Ordinal(e.value) - WindowDays + 1));
    }
  }

  /** A pilot who is current has an expiry, and it is today or later. */
  lemma CurrentHasExpiryAhead(fs: seq<Flight>, fld: Field, today: Date, e: Option<Date>)
    requires IsExpiry(fs, fld, e) && WindowLandings(fs, fld, today) >= Required
    ensures e.Some? && Ordinal(today) <= Ordinal(e.value)
  {
    TotalBelowAll(fs, fld, OnOrAfter(WindowStart(today)));
    WindowsOrdered(fs, fld, WindowStart(today), Ordinal(e.value) - WindowDays + 1);
  }

  /** The newest-first scan over only the flights with landings of kind `fld`. */
  method Expiry(flights: seq<Flight>, fld: Field) returns (expiry: Option<Date>)
    ensures IsExpiry(flights, fld, expiry)
    ensures expiry.Some? ==>
      exists f :: f in flights && Get(f, fld) > 0 && expiry.value == AddDays(f.date, WindowDays)
  {
    var withLandings := Where(flights, Positive(fld));
    var ordered := ByDateDescending(withLandings);
    expiry := ExpiryScan(ordered, fld);
    TotalWherePositive(flights, fld, Always);
    ExpiryIndependentOfOrder(ordered, withLandings, fld, expiry);
    if expiry.Some? {
      TotalWherePositive(flights, fld, OnOrAfter(Ordinal(expiry.value) - WindowDays));
      TotalWherePositive(flights, fld, OnOrAfter(Ordinal(expiry.value) - WindowDays + 1));
      var k :| 0 <= k < |ordered| && Get(ordered[k], fld) > 0 &&
               expiry.value == AddDays(ordered[k].date, WindowDays);
      assert ordered[k] in multiset(withLandings);
      WhereMembers(flights, Positive(fld));
    }
  }

  /** Day and night passenger currency on `today`. */
  method CheckPassengerCurrency(flights: seq<Flight>, today: Date) returns (r: PassengerCurrency)
    ensures r.dayLandings == WindowLandings(flights, DayLandings, today)
    ensures r.nightLandings == WindowLandings(flights, NightFullstopLandings, today)
    ensures r.dayCurrent <==> r.dayLandings >= Required
    ensures r.nightCurrent <==> r.nightLandings >= Required
    ensures IsExpiry(flights, DayLandings, r.dayExpiry)
    ensures IsExpiry(flights, NightFullstopLandings, r.nightExpiry)
    ensures r.dayCurrent ==> r.dayExpiry.Some? && Ordinal(today) <= Ordinal(r.dayExpiry.value)
    ensures r.nightCurrent ==> r.nightExpiry.Some? && Ordinal(today) <= Ordinal(r.nightExpiry.value)
  {
    var dayCurrent, dayLandings, dayExpiry := KindCurrency(flights, DayLandings, today);
    var nightCurrent, nightLandings, nightExpiry := KindCurrency(flights, NightFullstopLandings, today);
    r := PassengerCurrency(dayCurrent, dayLandings, dayExpiry, nightCurrent, nightLandings, nightExpiry);
  }

  /** The count over the last 90 days, the currency and the expiry of one
      kind of landing. */
  method KindCurrency(flights: seq<Flight>, fld: Field, today: Date)
    returns (current: bool, landings: nat, expiry: Option<Date>)
    ensures landings == WindowLandings(flights, fld, today)
    ensures current <==> landings >= Required
    ensures IsExpiry(flights, fld, expiry)
    ensures current ==> expiry.Some? && Ordinal(today) <= Ordinal(expiry.value)
  {
    var ninetyDaysAgo := AddDays(today, -WindowDays);
    landings := Total(flights, fld, OnOrAfter(Ordinal(ninetyDaysAgo)));
    current := landings >= Required;
    expiry := Expiry(flights, fld);
    if current {
      CurrentHasExpiryAhead(flights, fld, today, expiry);
    }
  }

  /** Days left on the day or night currency, or None when that currency
      has lapsed or `kind` names neither. */
  method DaysUntilCurrencyExpires(flights: seq<Flight>, kind: string, today: Date) returns (r: Option<int>)
    ensures kind != "day" && kind != "night" ==> r.None?
    ensures kind == "day" ==> (r.Some? <==> WindowLandings(flights, DayLandings, today) >= Required)
    ensures kind == "night" ==> (r.Some? <==> WindowLandings(flights, NightFullstopLandings, today) >= Required)
    ensures r.Some? ==> r.value >= 0
    ensures r.Some? ==> exists e: Date ::
      IsExpiry(flights, if kind == "day" then DayLandings else NightFullstopLandings, Some(e)) &&
      r.value == DaysBetween(today, e)
  {
    var currency := CheckPassengerCurrency(flights, today);
    if kind == "day" {
      if !currency.dayCurrent {
        return None;
      }
      if currency.dayExpiry.Some? {
        return Some(DaysBetween(today, currency.dayExpiry.value));
      }
    } else if kind == "night" {
      if !currency.nightCurrent {
        return None;
      }
      if currency.nightExpiry.Some? {
        return Some(DaysBetween(today, currency.nightExpiry.value));
      }
    }
    return None;
  }

  /** One day landing on each of 2025-02-20, 2025-03-25 and 2025-05-01. */
  function ExampleFlights(p: Plane): seq<Flight> {
    [LandingFlight(CivilDate(2025, 2, 20), p), LandingFlight(CivilDate(2025, 3, 25), p),
     LandingFlight(CivilDate(2025, 5, 1), p)]
  }

  /** On 2025-06-01 only the last two of those landings fall in the window,
      so the pilot is not current, and the expiry is 2025-05-21, 90 days
      after the oldest. */
  lemma ExampleNotCurrent(p: Plane, today: Date)
    requires today == CivilDate(2025, 6, 1)
    ensures WindowLandings(ExampleFlights(p), DayLandings, today) == 2
    ensures IsExpiry(ExampleFlights(p), DayLandings, Some(CivilDate(2025, 5, 21)))
  {
    ExampleWindow(p, today);
    ExampleExpiry(p);
  }

  /** The day numbers of the example's dates within 2025. */
  lemma ExampleDates()
    ensures var base := DaysBeforeYear(2025);
      Ordinal(CivilDate(2025, 2, 20)) == base + 51 && Ordinal(CivilDate(2025, 3, 25)) == base + 84 &&
      Ordinal(CivilDate(2025, 5, 1)) == base + 121 && Ordinal(CivilDate(2025, 5, 21)) == base + 141 &&
      Ordinal(CivilDate(2025, 6, 1)) == base + 152
  {
  }

  lemma ExampleWindow(p: Plane, today: Date)
    requires today == CivilDate(2025, 6, 1)
    ensures WindowLandings(ExampleFlights(p), DayLandings, today) == 2
  {
    var fs := ExampleFlights(p);
    ExampleDates();
    TotalOfThree(fs[0], fs[1], fs[2], DayLandings, OnOrAfter(WindowStart(today)));
  }

  lemma ExampleExpiry(p: Plane)
    ensures IsExpiry(ExampleFlights(p), DayLandings, Some(CivilDate(2025, 5, 21)))
  {
    var fs := ExampleFlights(p);
    var base := DaysBeforeYear(2025);
    ExampleDates();
    TotalOfThree(fs[0], fs[1], fs[2], DayLandings, Always);
    TotalOfThree(fs[0], fs[1], fs[2], DayLandings, OnOrAfter(base + 51));
    TotalOfThree(fs[0], fs[1], fs[2], DayLandings, OnOrAfter(base + 52));
  }

  lemma TotalOfThree(f1: Flight, f2: Flight, f3: Flight, fld: Field, c: Condition)
    ensures Total([f1, f2, f3], fld, c) == Amount(f1, fld, c) + Amount(f2, fld, c) + Amount(f3, fld, c)
  {
    TotalSingle(f1, fld, c);
    assert [f1, f2] == [f1] + [f2];
    TotalSnoc([f1], f2, fld, c);
    assert [f1, f2, f3] == [f1, f2] + [f3];
    TotalSnoc([f1, f2], f3, fld, c);
  }

  /** A flight with one day landing and nothing else. */
  function LandingFlight(d: Date, p: Plane): Flight {
    Flight(d, p, None, None, [], 0, 0, 0, 0, 0, 0, 0, 0, 0, 1, 0, 0, 0)
  }

  // ---------------------------------------------------------------------
  // Medical status

  /** The medical fields the status report reads: issue date, expiry date
      and class. */
  datatype IssuedMedical = IssuedMedical(dateIssued: Date, dateExpires: Date, medicalClass: int)

  datatype Standing = Expired | Critical | Warning | Current | NoMedical

  function StandingName(s: Standing): string {
    match s
    case Expired => "expired"
    case Critical => "critical"
    case Warning => "warning"
    case Current => "current"
    case NoMedical => "none"
  }

  datatype MedicalStatus = MedicalStatus(
    hasMedical: bool,
    medicalClass: Option<int>,
    expiry: Option<Date>,
    daysRemaining: Option<int>,
    status: Standing)

  const NoMedicalStatus := MedicalStatus(false, None, None, None, NoMedical)

  /** The colour bucket for the days left on a medical: exactly one of the
      four ranges applies. */
  function Bucket(daysRemaining: int): (s: Standing)
    ensures s == Expired <==> daysRemaining < 0
    ensures s == Critical <==> 0 <= daysRemaining < 30
    ensures s == Warning <==> 30 <= daysRemaining < 60
    ensures s == Current <==> 60 <= daysRemaining
    ensures s != NoMedical
  {
    if daysRemaining < 0 then Expired
    else if daysRemaining < 30 then Critical
    else if daysRemaining < 60 then Warning
    else Current
  }

  function Severity(s: Standing): int {
    match s
    case Expired => 3
    case Critical => 2
    case Warning => 1
    case Current => 0
    case NoMedical => 4
  }

  /** More days left never gives a more severe bucket. */
  lemma BucketMonotone(a: int, b: int)
    requires a <= b
    ensures Severity(Bucket(b)) <= Severity(Bucket(a))
  {
  }

  function IssuedNewestFirst(m: IssuedMedical): Key {
    (-Ordinal(m.dateIssued), 0)
  }

  /** The most recently issued medical, or None when there is none. */
  function LatestMedical(ms: seq<IssuedMedical>): (r: Option<IssuedMedical>)
    ensures r.None? <==> ms == []
    ensures r.Some? ==> r.value in ms
    ensures r.Some? ==> forall m | m in ms :: Ordinal(m.dateIssued) <= Ordinal(r.value.dateIssued)
  {
    if ms == [] then None
    else
      SortedHead(ms, IssuedNewestFirst);
      Some(SortBy(ms, IssuedNewestFirst)[0])
  }

  /** The medical status report. `lookup` is the pilot's medicals, or None
      when reading them fails; either failure or an empty list gives the
      "none" report. */
  function CheckMedicalStatus(lookup: Option<seq<IssuedMedical>>, today: Date): (r: MedicalStatus)
    ensures r.status == NoMedical <==> lookup.None? || lookup.value == []
    ensures r.status == NoMedical ==> r == NoMedicalStatus
    ensures r.status != NoMedical ==>
      exists m :: m in lookup.value &&
        (forall m' | m' in lookup.value :: Ordinal(m'.dateIssued) <= Ordinal(m.dateIssued)) &&
        r == MedicalStatus(true, Some(m.medicalClass), Some(m.dateExpires),
                           Some(DaysBetween(today, m.dateExpires)), Bucket(DaysBetween(today, m.dateExpires)))
  {
    if lookup.None? then NoMedicalStatus
    else
      var latest := LatestMedical(lookup.value);
      if latest.None? then NoMedicalStatus
      else
        var m := latest.value;
        var daysRemaining := DaysBetween(today, m.dateExpires);
        MedicalStatus(true, Some(m.medicalClass), Some(m.dateExpires), Some(daysRemaining), Bucket(daysRemaining))
  }
}
