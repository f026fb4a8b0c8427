/** The records the logbook keeps (pilots, planes, flights) and the sums over
    a pilot's flights that the statistics and currency rules are built from.

    Times are held in tenths of an hour (the database keeps one decimal
    place), landings as counts. A flight's date is compared through its day
    number (`Calendar.Ordinal`), which orders dates as the calendar does
    (`Calendar.OrdinalOrder`). */
module Logbook {
  import opened Wrappers
  import opened Calendar
  import opened Sequences
  import opened Routes

  /** Role codes PI, I, E and PA. */
  datatype Role = Pilot | Instructor | Examiner | Passenger

  datatype Person = Person(id: int, firstName: string, lastName: string, role: Role)

  /** "<first name> <last name>". */
  function PersonLabel(p: Person): string {
    p.firstName + " " + p.lastName
  }

  /** Plane classes "Single Engine Land" and "Multi Engine Land". */
  datatype PlaneClass = SEL | MEL

  datatype Plane = Plane(id: int, tailNumber: string, typeCode: string, planeClass: PlaneClass)

  /** Tenths of an hour. */
  type Tenths = nat

  datatype Flight = Flight(
    date: Date,
    plane: Plane,
    route: Option<Route>,
    instructor: Option<Person>,
    passengers: seq<Person>,
    flightTime: Tenths,
    picTime: Tenths,
    sicTime: Tenths,
    dualReceived: Tenths,
    xcTime: Tenths,
    dayTime: Tenths,
    nightTime: Tenths,
    actualInstrument: Tenths,
    simulatedInstrument: Tenths,
    dayLandings: nat,
    dayFullstopLandings: nat,
    nightLandings: nat,
    nightFullstopLandings: nat)

  /** The numeric columns of a flight. */
  datatype Field =
    | FlightTime | PicTime | SicTime | DualReceived | XcTime | DayTime | NightTime
    | ActualInstrument | SimulatedInstrument
    | DayLandings | DayFullstopLandings | NightLandings | NightFullstopLandings
    | Unit  // one per flight: its total is a count of flights

  function Get(f: Flight, fld: Field): nat {
    match fld
    case FlightTime => f.flightTime
    case PicTime => f.picTime
    case SicTime => f.sicTime
    case DualReceived => f.dualReceived
    case XcTime => f.xcTime
    case DayTime => f.dayTime
    case NightTime => f.nightTime
    case ActualInstrument => f.actualInstrument
    case SimulatedInstrument => f.simulatedInstrument
    case DayLandings => f.dayLandings
    case DayFullstopLandings => f.dayFullstopLandings
    case NightLandings => f.nightLandings
    case NightFullstopLandings => f.nightFullstopLandings
    case Unit => 1
  }

  /** The row filters the statistics use. */
  datatype Condition =
    | Always
    | OnOrAfter(day: int)          // date on or after the day with this number
    | InMonth(month: int)          // date in the month with this month index
    | XcAndPic                     // xc_time > 0 and pic_time > 0
    | OfClass(planeClass: PlaneClass)
    | Positive(field: Field)       // the field is > 0
    | OfTail(tailNumber: string)   // flown in a plane with this tail number
    | OfType(typeCode: string, typeClass: PlaneClass)  // plane of this type and class
    | InstructedBy(personId: int)  // instructor with this id and role I or E
    | CarriesPassenger(personId: int)  // a passenger of role PA with this id on board

  predicate Holds(c: Condition, f: Flight) {
    match c
    case Always => true
    case OnOrAfter(day) => Ordinal(f.date) >= day
    case InMonth(k) => MonthIndex(f.date) == k
    case XcAndPic => f.xcTime > 0 && f.picTime > 0
    case OfClass(pc) => f.plane.planeClass == pc
    case Positive(fld) => Get(f, fld) > 0
    case OfTail(t) => f.plane.tailNumber == t
    case OfType(t, pc) => f.plane.typeCode == t && f.plane.planeClass == pc
    case InstructedBy(id) =>
      f.instructor.Some? && f.instructor.value.id == id &&
      (f.instructor.value.role == Instructor || f.instructor.value.role == Examiner)
    case CarriesPassenger(id) => PassengerSeats(f.passengers, id) > 0
  }

  /** How many of the listed people are passengers (role PA) with this id. */
  function PassengerSeats(ps: seq<Person>, id: int): nat {
    if ps == [] then 0
    else PassengerSeats(ps[..|ps| - 1], id) + (if ps[|ps| - 1].id == id && ps[|ps| - 1].role == Passenger then 1 else 0)
  }

  /** What one flight adds to a filtered sum. */
  function Amount(f: Flight, fld: Field, c: Condition): nat {
    if Holds(c, f) then Get(f, fld) else 0
  }

  function AmountOf(fld: Field, c: Condition): Flight -> int {
    f => Amount(f, fld, c) as int
  }

  function HoldsOf(c: Condition): Flight -> bool {
    f => Holds(c, f)
  }

  /** Sum of a field over the flights that satisfy a condition. */
  function Total(fs: seq<Flight>, fld: Field, c: Condition): nat {
    SumOfNonNegative(fs, AmountOf(fld, c));
    SumOf(fs, AmountOf(fld, c))
  }

  /** Number of flights that satisfy a condition. */
  function Count(fs: seq<Flight>, c: Condition): nat {
    Total(fs, Unit, c)
  }

  /** The flights that satisfy a condition, in their order. */
  function Where(fs: seq<Flight>, c: Condition): seq<Flight> {
    Filter(fs, HoldsOf(c))
  }

  /** The filtered flights are exactly the flights that satisfy the condition. */
  lemma WhereMembers(fs: seq<Flight>, c: Condition)
    ensures forall f | f in Where(fs, c) :: f in fs && Holds(c, f)
    ensures forall f | f in fs && Holds(c, f) :: f in Where(fs, c)
  {
    FilterMembers(fs, HoldsOf(c));
  }

  function NewestFirst(f: Flight): Key {
    (-Ordinal(f.date), 0)
  }

  function OldestFirst(f: Flight): Key {
    (Ordinal(f.date), 0)
  }

  predicate NewestFirstOrder(fs: seq<Flight>) {
    forall i, j :: 0 <= i < j < |fs| ==> Ordinal(fs[j].date) <= Ordinal(fs[i].date)
  }

  predicate OldestFirstOrder(fs: seq<Flight>) {
    forall i, j :: 0 <= i < j < |fs| ==> Ordinal(fs[i].date) <= Ordinal(fs[j].date)
  }

  /** `order_by('-date')`: the same flights, newest first. */
  function ByDateDescending(fs: seq<Flight>): (r: seq<Flight>)
    ensures multiset(r) == multiset(fs) && |r| == |fs|
    ensures NewestFirstOrder(r)
  {
    var s := SortBy(fs, NewestFirst);
    assert NewestFirstOrder(s) by {
      forall i, j | 0 <= i < j < |s| ensures Ordinal(s[j].date) <= Ordinal(s[i].date) {
        assert KeyLe(NewestFirst(s[i]), NewestFirst(s[j]));
      }
    }
    s
  }

  /** `order_by('date')`: the same flights, oldest first. */
  function ByDateAscending(fs: seq<Flight>): (r: seq<Flight>)
    ensures multiset(r) == multiset(fs) && |r| == |fs|
    ensures OldestFirstOrder(r)
  {
    var s := SortBy(fs, OldestFirst);
    assert OldestFirstOrder(s) by {
      forall i, j | 0 <= i < j < |s| ensures Ordinal(s[i].date) <= Ordinal(s[j].date) {
        assert KeyLe(OldestFirst(s[i]), OldestFirst(s[j]));
      }
    }
    s
  }

  // ---------------------------------------------------------------------
  // Sums over flights

  lemma TotalAppend(a: seq<Flight>, b: seq<Flight>, fld: Field, c: Condition)
    ensures Total(a + b, fld, c) == Total(a, fld, c) + Total(b, fld, c)
  {
    SumOfAppend(a, b, AmountOf(fld, c));
  }

  lemma TotalSnoc(w: seq<Flight>, f: Flight, fld: Field, c: Condition)
    ensures Total(w + [f], fld, c) == Total(w, fld, c) + Amount(f, fld, c)
  {
    assert (w + [f])[..|w|] == w;
  }

  lemma TotalSingle(f: Flight, fld: Field, c: Condition)
    ensures Total([f], fld, c) == Amount(f, fld, c)
  {
    assert [f] == [] + [f];
    TotalSnoc([], f, fld, c);
  }

  /** Reordering the flights does not change any sum. */
  lemma TotalPermutation(a: seq<Flight>, b: seq<Flight>, fld: Field, c: Condition)
    requires multiset(a) == multiset(b)
    ensures Total(a, fld, c) == Total(b, fld, c)
  {
    SumOfPermutation(a, b, AmountOf(fld, c));
  }

  /** A filtered sum never exceeds the unfiltered one. */
  lemma TotalBelowAll(fs: seq<Flight>, fld: Field, c: Condition)
    ensures Total(fs, fld, c) <= Total(fs, fld, Always)
  {
    SumOfMonotone(fs, AmountOf(fld, c), AmountOf(fld, Always));
  }

  /** Moving the start of a date window later never raises its sum. */
  lemma TotalWindowMonotone(fs: seq<Flight>, fld: Field, d1: int, d2: int)
    requires d1 <= d2
    ensures Total(fs, fld, OnOrAfter(d2)) <= Total(fs, fld, OnOrAfter(d1))
  {
    SumOfMonotone(fs, AmountOf(fld, OnOrAfter(d2)), AmountOf(fld, OnOrAfter(d1)));
  }

  /** When every flight satisfies the condition, the filter changes nothing. */
  lemma TotalAllHold(fs: seq<Flight>, fld: Field, c: Condition)
    requires forall f | f in fs :: Holds(c, f)
    ensures Total(fs, fld, c) == Total(fs, fld, Always)
  {
    SumOfCongruent(fs, AmountOf(fld, c), AmountOf(fld, Always));
  }

  /** When no flight satisfies the condition, the sum is zero. */
  lemma TotalNoneHold(fs: seq<Flight>, fld: Field, c: Condition)
    requires forall f | f in fs :: !Holds(c, f)
    ensures Total(fs, fld, c) == 0
  {
    SumOfCongruent(fs, AmountOf(fld, c), Zero);
    SumOfZero(fs);
  }

  function Zero(f: Flight): int {
    0
  }

  lemma {:induction false} SumOfZero(fs: seq<Flight>)
    ensures SumOf(fs, Zero) == 0
    decreases |fs|
  {
    if fs != [] {
      SumOfZero(fs[..|fs| - 1]);
    }
  }

  /** Dropping the flights where a field is zero keeps every sum of that field. */
  lemma TotalWherePositive(fs: seq<Flight>, fld: Field, c: Condition)
    ensures Total(Where(fs, Positive(fld)), fld, c) == Total(fs, fld, c)
  {
    SumOfFilter(fs, HoldsOf(Positive(fld)), AmountOf(fld, c));
  }

  /** When every flight satisfying `c2` satisfies `c1`, filtering by `c1`
      first does not change the sum over `c2`. */
  lemma TotalWhereImplied(fs: seq<Flight>, c1: Condition, fld: Field, c2: Condition)
    requires forall f | f in fs && Holds(c2, f) :: Holds(c1, f)
    ensures Total(Where(fs, c1), fld, c2) == Total(fs, fld, c2)
  {
    SumOfFilter(fs, HoldsOf(c1), AmountOf(fld, c2));
  }

  /** Summing over the filtered flights is the filtered sum. */
  lemma TotalWhere(fs: seq<Flight>, c: Condition, fld: Field)
    ensures Total(Where(fs, c), fld, Always) == Total(fs, fld, c)
  {
    SumOfFilter(fs, HoldsOf(c), AmountOf(fld, c));
    WhereMembers(fs, c);
    TotalAllHold(Where(fs, c), fld, c);
  }

  /** A sum over a prefix never exceeds the sum over the whole sequence. */
  lemma TotalPrefix(fs: seq<Flight>, k: nat, fld: Field, c: Condition)
    requires k <= |fs|
    ensures Total(fs[..k], fld, c) <= Total(fs, fld, c)
  {
    assert fs == fs[..k] + fs[k..];
    TotalAppend(fs[..k], fs[k..], fld, c);
  }

  /** At least one flight satisfies the condition exactly when the count is positive. */
  lemma {:induction false} CountPositive(fs: seq<Flight>, c: Condition)
    ensures Count(fs, c) > 0 <==> exists f :: f in fs && Holds(c, f)
    decreases |fs|
  {
    if fs != [] {
      var init, last := fs[..|fs| - 1], fs[|fs| - 1];
      CountPositive(init, c);
      assert fs == init + [last];
      TotalSnoc(init, last, Unit, c);
      if Holds(c, last) {
        assert last in fs;
      } else {
        assert forall f | f in fs && Holds(c, f) :: f in init;
      }
    }
  }

  // ---------------------------------------------------------------------
  // Sums over a partition of the flights

  /** Sum over the conditions of the field's total under each. */
  function SumTotals(fs: seq<Flight>, fld: Field, conds: seq<Condition>): nat {
    if conds == [] then 0
    else SumTotals(fs, fld, conds[..|conds| - 1]) + Total(fs, fld, conds[|conds| - 1])
  }

  /** What one flight adds to each of the conditions' totals, summed. */
  function SumAmounts(f: Flight, fld: Field, conds: seq<Condition>): nat {
    if conds == [] then 0
    else SumAmounts(f, fld, conds[..|conds| - 1]) + Amount(f, fld, conds[|conds| - 1])
  }

  /** Every flight satisfies exactly one of the conditions. */
  ghost predicate Partitions(conds: seq<Condition>, fs: seq<Flight>) {
    (forall f | f in fs :: exists i :: 0 <= i < |conds| && Holds(conds[i], f)) &&
    (forall f, i, j | f in fs && 0 <= i < |conds| && 0 <= j < |conds| && Holds(conds[i], f) && Holds(conds[j], f) :: i == j)
  }

  lemma {:induction false} SumTotalsSnoc(fs: seq<Flight>, f: Flight, fld: Field, conds: seq<Condition>)
    ensures SumTotals(fs + [f], fld, conds) == SumTotals(fs, fld, conds) + SumAmounts(f, fld, conds)
    decreases |conds|
  {
    if conds != [] {
      SumTotalsSnoc(fs, f, fld, conds[..|conds| - 1]);
      TotalSnoc(fs, f, fld, conds[|conds| - 1]);
    }
  }

  lemma {:induction false} SumAmountsNone(f: Flight, fld: Field, conds: seq<Condition>)
    requires forall i | 0 <= i < |conds| :: !Holds(conds[i], f)
    ensures SumAmounts(f, fld, conds) == 0
    decreases |conds|
  {
    if conds != [] {
      SumAmountsNone(f, fld, conds[..|conds| - 1]);
    }
  }

  lemma {:induction false} SumAmountsOne(f: Flight, fld: Field, conds: seq<Condition>, k: nat)
    requires k < |conds| && Holds(conds[k], f)
    requires forall i | 0 <= i < |conds| && i != k :: !Holds(conds[i], f)
    ensures SumAmounts(f, fld, conds) == Get(f, fld)
    decreases |conds|
  {
    var init := conds[..|conds| - 1];
    if k == |conds| - 1 {
      SumAmountsNone(f, fld, init);
    } else {
      SumAmountsOne(f, fld, init, k);
    }
  }

  /** Splitting the flights by conditions that partition them splits the
      total: the parts add up to the whole. */
  lemma {:induction false} TotalPartition(fs: seq<Flight>, fld: Field, conds: seq<Condition>)
    requires Partitions(conds, fs)
    ensures SumTotals(fs, fld, conds) == Total(fs, fld, Always)
    decreases |fs|
  {
    if fs == [] {
      SumTotalsEmpty(fld, conds);
    } else {
      var init, last := fs[..|fs| - 1], fs[|fs| - 1];
      assert fs == init + [last];
      assert Partitions(conds, init) by {
        forall f | f in init ensures f in fs {
        }
      }
      TotalPartition(init, fld, conds);
      SumTotalsSnoc(init, last, fld, conds);
      TotalSnoc(init, last, fld, Always);
      assert last in fs;
      var k :| 0 <= k < |conds| && Holds(conds[k], last);
      SumAmountsOne(last, fld, conds, k);
    }
  }

  lemma {:induction false} SumTotalsEmpty(fld: Field, conds: seq<Condition>)
    ensures SumTotals([], fld, conds) == 0
    decreases |conds|
  {
    if conds != [] {
      SumTotalsEmpty(fld, conds[..|conds| - 1]);
    }
  }

  /** The condition of each key, in the keys' order. */
  function ConditionsOf<K>(keys: seq<K>, cond: K -> Condition): (r: seq<Condition>)
    ensures |r| == |keys|
    ensures forall i | 0 <= i < |keys| :: r[i] == cond(keys[i])
  {
    if keys == [] then [] else ConditionsOf(keys[..|keys| - 1], cond) + [cond(keys[|keys| - 1])]
  }

  /** Grouping by a key: when each key's condition holds of exactly the
      flights with that key, distinct keys covering every flight partition
      the flights. */
  lemma KeyedPartition<K>(fs: seq<Flight>, keys: seq<K>, keyOf: Flight -> K, cond: K -> Condition)
    requires forall f, k :: Holds(cond(k), f) <==> keyOf(f) == k
    requires forall f | f in fs :: keyOf(f) in keys
    requires forall i, j | 0 <= i < j < |keys| :: keys[i] != keys[j]
    ensures Partitions(ConditionsOf(keys, cond), fs)
  {
    var conds := ConditionsOf(keys, cond);
    KeysCover(fs, keys, keyOf, conds);
    KeysExclusive(fs, keys, keyOf, conds);
  }

  /** Each flight satisfies the condition of its own key. */
  lemma KeysCover<K>(fs: seq<Flight>, keys: seq<K>, keyOf: Flight -> K, conds: seq<Condition>)
    requires |conds| == |keys|
    requires forall f, i | 0 <= i < |keys| :: Holds(conds[i], f) <==> keyOf(f) == keys[i]
    requires forall f | f in fs :: keyOf(f) in keys
    ensures forall f | f in fs :: exists i :: 0 <= i < |conds| && Holds(conds[i], f)
  {
    forall f | f in fs ensures exists i :: 0 <= i < |conds| && Holds(conds[i], f) {
      var i := IndexOf(keys, keyOf(f));
      assert Holds(conds[i], f);
    }
  }

  /** With distinct keys, no flight satisfies two keys' conditions. */
  lemma KeysExclusive<K>(fs: seq<Flight>, keys: seq<K>, keyOf: Flight -> K, conds: seq<Condition>)
    requires |conds| == |keys|
    requires forall f, i | 0 <= i < |keys| :: Holds(conds[i], f) <==> keyOf(f) == keys[i]
    requires forall i, j | 0 <= i < j < |keys| :: keys[i] != keys[j]
    ensures forall f, i, j | f in fs && 0 <= i < |conds| && 0 <= j < |conds| && Holds(conds[i], f) && Holds(conds[j], f) :: i == j
  {
    forall f, i, j | f in fs && 0 <= i < |conds| && 0 <= j < |conds| && Holds(conds[i], f) && Holds(conds[j], f)
      ensures i == j
    {
      assert keys[i] == keyOf(f) && keys[j] == keyOf(f);
      SamePosition(keys, i, j);
    }
  }
}
