/** Medical certificates and the privilege ladder they give over time.

    A medical is issued in class 1, 2 or 3. Each class of privileges it
    carries lapses at the end of a calendar month: first and second class
    12 months after the examination month, third class 60 months after.
    A first-class medical loses its first- and second-class privileges on
    the same date, so it drops straight to third class; a second-class
    medical drops to third class; a third-class medical lapses at once. The class number is an unchecked integer column: any
    value other than 1 or 2 behaves as third class. */
module Medicals {
  import opened Wrappers
  import opened Calendar
  import opened Logbook

  datatype Medical = Medical(
    classNumber: int,
    examinationDate: Date,
    examinerName: string,
    examinerDesignation: string,
    pilot: Person)

  /** `e` is the last day of the calendar month `n` months after the month of `d`. */
  predicate IsMonthEndAfter(e: Date, d: Date, n: int) {
    MonthIndex(e) == MonthIndex(d) + n && e.day == DaysInMonth(e.year, e.month)
  }

  /** `d + relativedelta(months=n)`, moved to the first of the following
      month (`relativedelta(months=1, day=1)`), less one day. */
  function MonthEndAfter(d: Date, n: int): (r: Date)
    ensures IsMonthEndAfter(r, d, n)
  {
    var shifted := AddMonths(d, n);
    var nextMonth := ReplaceDay(AddMonths(shifted, 1), 1);
    DayBeforeFirstOfMonth(nextMonth);
    PrevDay(nextMonth)
  }

  function FirstClassExpiry(m: Medical): (r: Option<Date>)
    ensures r.Some? <==> m.classNumber == 1
    ensures r.Some? ==> IsMonthEndAfter(r.value, m.examinationDate, 12)
  {
    if m.classNumber != 1 then None else Some(MonthEndAfter(m.examinationDate, 12))
  }

  function SecondClassExpiry(m: Medical): (r: Option<Date>)
    ensures r.Some? <==> m.classNumber == 1 || m.classNumber == 2
    ensures r.Some? ==> IsMonthEndAfter(r.value, m.examinationDate, 12)
  {
    if m.classNumber !in {1, 2} then None else Some(MonthEndAfter(m.examinationDate, 12))
  }

  /** Every medical carries third-class privileges. */
  function ThirdClassExpiry(m: Medical): (r: Date)
    ensures IsMonthEndAfter(r, m.examinationDate, 60)
  {
    MonthEndAfter(m.examinationDate, 60)
  }

  /** The expiry of the class-`k` privileges, when the medical carries them. */
  function ClassExpiry(m: Medical, k: int): Option<Date>
    requires 1 <= k <= 3
  {
    if k == 1 then FirstClassExpiry(m)
    else if k == 2 then SecondClassExpiry(m)
    else Some(ThirdClassExpiry(m))
  }

  /** Class-`k` privileges are carried and still valid on `asOf`. */
  predicate Valid(m: Medical, k: int, asOf: Date)
    requires 1 <= k <= 3
  {
    var e := ClassExpiry(m, k);
    e.Some? && Ordinal(asOf) <= Ordinal(e.value)
  }

  /** The best class of privileges the medical gives on `asOf`, or None
      once even third class has lapsed. */
  function CurrentPrivilegeLevel(m: Medical, asOf: Date): (r: Option<int>)
    ensures r.Some? ==> 1 <= r.value <= 3 && Valid(m, r.value, asOf)
    ensures 1 <= m.classNumber <= 3 && r.Some? ==> r.value >= m.classNumber
  {
    if m.classNumber == 1 && Ordinal(asOf) <= Ordinal(FirstClassExpiry(m).value) then Some(1)
    else if m.classNumber in {1, 2} && Ordinal(asOf) <= Ordinal(SecondClassExpiry(m).value) then Some(2)
    else if Ordinal(asOf) <= Ordinal(ThirdClassExpiry(m)) then Some(3)
    else None
  }

  /** The expiry of the privileges held on `asOf`. */
  function NextExpirationDate(m: Medical, asOf: Date): (r: Option<Date>)
    ensures r.None? <==> CurrentPrivilegeLevel(m, asOf).None?
    ensures r.Some? ==> r == ClassExpiry(m, CurrentPrivilegeLevel(m, asOf).value)
    ensures r.Some? ==> Ordinal(asOf) <= Ordinal(r.value)
  {
    var level := CurrentPrivilegeLevel(m, asOf);
    if level == Some(1) then FirstClassExpiry(m)
    else if level == Some(2) then SecondClassExpiry(m)
    else if level == Some(3) then Some(ThirdClassExpiry(m))
    else None
  }

  /** The pilot's name followed by the class issued. */
  function MedicalLabel(m: Medical): (r: string)
    ensures |r| > |PersonLabel(m.pilot)| && r[..|PersonLabel(m.pilot)|] == PersonLabel(m.pilot)
    ensures m.classNumber == 1 <==> r[|PersonLabel(m.pilot)|..] == " First Class"
    ensures m.classNumber == 2 <==> r[|PersonLabel(m.pilot)|..] == " Second Class"
    ensures m.classNumber != 1 && m.classNumber != 2 <==> r[|PersonLabel(m.pilot)|..] == " Third Class"
  {
    var res := PersonLabel(m.pilot);
    if m.classNumber == 1 then res + " First Class"
    else if m.classNumber == 2 then res + " Second Class"
    else res + " Third Class"
  }

  // ---------------------------------------------------------------------
  // Properties of the ladder

  /** For a first-class medical the first- and second-class privileges lapse
      together, and third class strictly later. */
  lemma FirstClassExpiries(m: Medical)
    requires m.classNumber == 1
    ensures FirstClassExpiry(m) == SecondClassExpiry(m)
    ensures Ordinal(FirstClassExpiry(m).value) < Ordinal(ThirdClassExpiry(m))
  {
    MonthIndexOrder(FirstClassExpiry(m).value, ThirdClassExpiry(m));
  }

  /** Second-class privileges never outlast third-class ones. */
  lemma SecondBeforeThird(m: Medical)
    requires SecondClassExpiry(m).Some?
    ensures Ordinal(SecondClassExpiry(m).value) < Ordinal(ThirdClassExpiry(m))
  {
    MonthIndexOrder(SecondClassExpiry(m).value, ThirdClassExpiry(m));
  }

  /** The level is the smallest class whose privileges the medical carries
      and which has not lapsed on `asOf`. */
  lemma LevelIsSmallestValidClass(m: Medical, asOf: Date, k: int)
    requires 1 <= k <= 3
    ensures CurrentPrivilegeLevel(m, asOf) == Some(k) <==>
              Valid(m, k, asOf) && forall j :: 1 <= j < k ==> !Valid(m, j, asOf)
  {
    var level := CurrentPrivilegeLevel(m, asOf);
    if k == 1 {
      assert level == Some(1) <==> Valid(m, 1, asOf);
    } else if k == 2 {
      assert level == Some(2) <==> Valid(m, 2, asOf) && !Valid(m, 1, asOf);
    } else {
      assert level == Some(3) <==> Valid(m, 3, asOf) && !Valid(m, 1, asOf) && !Valid(m, 2, asOf);
    }
  }

  /** No level at all exactly when no class of privileges is still valid. */
  lemma LevelNoneWhenAllLapsed(m: Medical, asOf: Date)
    ensures CurrentPrivilegeLevel(m, asOf).None? <==>
              !Valid(m, 1, asOf) && !Valid(m, 2, asOf) && !Valid(m, 3, asOf)
  {
  }

  /** A later reference date never gives a better level, and once every
      privilege has lapsed none comes back. */
  lemma {:induction false} LevelMonotone(m: Medical, a: Date, b: Date)
    requires Ordinal(a) <= Ordinal(b)
    ensures CurrentPrivilegeLevel(m, a).None? ==> CurrentPrivilegeLevel(m, b).None?
    ensures CurrentPrivilegeLevel(m, a).Some? && CurrentPrivilegeLevel(m, b).Some? ==>
              CurrentPrivilegeLevel(m, a).value <= CurrentPrivilegeLevel(m, b).value
  {
    if m.classNumber in {1, 2} {
      SecondBeforeThird(m);
    }
  }

  /** A first-class medical gives first-class privileges through the last
      day of its first-class expiry month, third-class privileges from the
      next day on (second class lapses with first), and none after the
      third-class expiry. */
  lemma FirstClassLevels(m: Medical)
    requires m.classNumber == 1
    ensures CurrentPrivilegeLevel(m, FirstClassExpiry(m).value) == Some(1)
    ensures CurrentPrivilegeLevel(m, NextDay(FirstClassExpiry(m).value)) == Some(3)
    ensures CurrentPrivilegeLevel(m, NextDay(ThirdClassExpiry(m))).None?
  {
    FirstClassExpiries(m);
  }

  /** An examination on 2024-01-15 gives first- and second-class privileges
      until 2025-01-31 and third-class privileges until 2029-01-31. */
  lemma ExampleJanuaryExpiries(pilot: Person)
    ensures var m := Medical(1, CivilDate(2024, 1, 15), "", "", pilot);
            FirstClassExpiry(m) == Some(CivilDate(2025, 1, 31)) &&
            SecondClassExpiry(m) == Some(CivilDate(2025, 1, 31)) &&
            ThirdClassExpiry(m) == CivilDate(2029, 1, 31)
  {
    var m := Medical(1, CivilDate(2024, 1, 15), "", "", pilot);
    var e1, e3 := FirstClassExpiry(m).value, ThirdClassExpiry(m);
    assert MonthIndex(e1) == 2025 * 12;
    assert e1.year == 2025 && e1.month == 1;
    assert MonthIndex(e3) == 2029 * 12;
    assert e3.year == 2029 && e3.month == 1;
  }

  /** The same medical on the day after its first-class expiry gives third-class
      privileges, and none once the third-class expiry has passed. */
  lemma ExampleJanuaryLevels(pilot: Person)
    ensures var m := Medical(1, CivilDate(2024, 1, 15), "", "", pilot);
            CurrentPrivilegeLevel(m, CivilDate(2025, 1, 31)) == Some(1) &&
            CurrentPrivilegeLevel(m, CivilDate(2025, 2, 1)) == Some(3) &&
            CurrentPrivilegeLevel(m, CivilDate(2029, 2, 1)).None?
  {
    var m := Medical(1, CivilDate(2024, 1, 15), "", "", pilot);
    ExampleJanuaryExpiries(pilot);
    FirstClassLevels(m);
    assert NextDay(CivilDate(2025, 1, 31)) == CivilDate(2025, 2, 1);
    assert NextDay(CivilDate(2029, 1, 31)) == CivilDate(2029, 2, 1);
  }
}
