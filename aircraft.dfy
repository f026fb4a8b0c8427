/** Hours per aircraft: the flights grouped by the plane's name (its tail
    number), each group with the plane's type and the first waypoint of a
    route flown in it, most hours first; and the highlights drawn from that
    list. */
module Aircraft {
  import opened Wrappers
  import opened Calendar
  import opened Sequences
  import opened Routes
  import opened Logbook

  datatype AircraftEntry = AircraftEntry(tailNumber: string, typeCode: string, hours: Tenths, location: Option<string>)

  /** A plane's name is its tail number. */
  function TailOf(f: Flight): string {
    f.plane.tailNumber
  }

  /** `order_by('plane', '-date')`: by plane, newest first within a plane. */
  function ByPlaneThenNewest(f: Flight): Key {
    (f.plane.id, -Ordinal(f.date))
  }

  /** The code of the route's first waypoint in sequence order, if the
      flight has a route with any waypoint. */
  function FirstWaypoint(route: Option<Route>): Option<string> {
    if route.None? then None
    else
      var steps := OrderedSteps(route.value);
      if steps == [] then None else Some(steps[0].waypoint.code)
  }

  /** The first waypoint exists exactly when the route has a step, and it
      is the waypoint of a step with the least sequence number. */
  lemma FirstWaypointLeast(route: Option<Route>)
    ensures FirstWaypoint(route).Some? <==> route.Some? && route.value.steps != []
    ensures FirstWaypoint(route).Some? ==>
      exists s :: s in route.value.steps && FirstWaypoint(route).value == s.waypoint.code &&
                  (forall t | t in route.value.steps :: s.sequence <= t.sequence)
  {
    if route.Some? {
      var steps := OrderedSteps(route.value);
      if steps != [] {
        assert steps[0] in multiset(route.value.steps);
        assert forall t | t in route.value.steps :: t in multiset(steps);
      }
    }
  }

  /** The first flight of `fs` in the plane with tail number `t`. */
  function FirstOfTail(fs: seq<Flight>, t: string): Option<Flight> {
    if fs == [] then None
    else
      var p := FirstOfTail(fs[..|fs| - 1], t);
      if p.Some? then p
      else if TailOf(fs[|fs| - 1]) == t then Some(fs[|fs| - 1])
      else None
  }

  /** There is a first flight of a tail exactly when some flight is in that
      plane, and it is the earliest such flight. */
  lemma {:induction false} FirstOfTailEarliest(fs: seq<Flight>, t: string)
    ensures FirstOfTail(fs, t).Some? <==> exists f :: f in fs && TailOf(f) == t
    ensures FirstOfTail(fs, t).Some? ==>
      exists k :: 0 <= k < |fs| && fs[k] == FirstOfTail(fs, t).value && TailOf(fs[k]) == t &&
                  (forall j | 0 <= j < k :: TailOf(fs[j]) != t)
    decreases |fs|
  {
    if fs != [] {
      var init := fs[..|fs| - 1];
      assert fs == init + [fs[|fs| - 1]];
      FirstOfTailEarliest(init, t);
    }
  }

  /** The entry of tail `t` as the loop leaves it once the flights of `done`
      are seen: type and location from the first of them in that plane,
      hours summed over all of them. */
  predicate Tallied(e: AircraftEntry, done: seq<Flight>, t: string) {
    var first := FirstOfTail(done, t);
    first.Some? &&
    e.tailNumber == t &&
    e.typeCode == first.value.plane.typeCode &&
    e.location == FirstWaypoint(first.value.route) &&
    e.hours == Total(done, FlightTime, OfTail(t))
  }

  /** The entry of each tail number, in the order the tails are listed. */
  function Entries(ordered: seq<Flight>, tails: seq<string>): (r: seq<AircraftEntry>)
    requires forall t | t in tails :: FirstOfTail(ordered, t).Some?
    ensures |r| == |tails|
    ensures forall i | 0 <= i < |tails| :: Tallied(r[i], ordered, tails[i])
  {
    if tails == [] then []
    else
      var t := tails[|tails| - 1];
      var first := FirstOfTail(ordered, t).value;
      Entries(ordered, tails[..|tails| - 1]) +
        [AircraftEntry(t, first.plane.typeCode, Total(ordered, FlightTime, OfTail(t)), FirstWaypoint(first.route))]
  }

  function MostHoursFirst(e: AircraftEntry): Key {
    (-(e.hours as int), 0)
  }

  function EntryTail(e: AircraftEntry): string {
    e.tailNumber
  }

  /** The breakdown the source computes: entries in the order their tails
      are first met among the flights by plane and newest first, then
      sorted by hours, most first. */
  function Breakdown(flights: seq<Flight>): seq<AircraftEntry> {
    var ordered := ByPlaneThenNewestOrder(flights);
    var tails := FirstSeen(ordered, TailOf);
    TailsSeen(ordered, tails);
    SortBy(Entries(ordered, tails), MostHoursFirst)
  }

  function ByPlaneThenNewestOrder(flights: seq<Flight>): (r: seq<Flight>)
    ensures multiset(r) == multiset(flights)
  {
    SortBy(flights, ByPlaneThenNewest)
  }

  lemma TailsSeen(ordered: seq<Flight>, tails: seq<string>)
    requires tails == FirstSeen(ordered, TailOf)
    ensures forall t | t in tails :: FirstOfTail(ordered, t).Some?
  {
    FirstSeenKeys(ordered, TailOf);
    forall t | t in tails ensures FirstOfTail(ordered, t).Some? {
      FirstOfTailEarliest(ordered, t);
    }
  }

  /** Walks the flights by plane and newest first, opening an entry the
      first time a tail number is met and adding each flight's time to its
      entry; then lists the entries by hours, most first. */
  method AircraftBreakdown(flights: seq<Flight>) returns (r: seq<AircraftEntry>)
    ensures r == Breakdown(flights)
  {
    var ordered := ByPlaneThenNewestOrder(flights);
    var data, order := TallyFlights(ordered);
    TallyKeysListed(ordered);
    var values := seq(|order|, j requires 0 <= j < |order| => data[order[j]]);
    TallyEntries(ordered, values);
    r := SortBy(values, MostHoursFirst);
  }

  /** The walk itself: the dictionary of entries by tail number and the
      tails in the order first met. */
  method TallyFlights(ordered: seq<Flight>) returns (data: map<string, AircraftEntry>, order: seq<string>)
    ensures data == Tally(ordered) && order == FirstSeen(ordered, TailOf)
  {
    data, order := map[], [];
    var i := 0;
    while i < |ordered|
      invariant 0 <= i <= |ordered|
      invariant data == Tally(ordered[..i]) && order == FirstSeen(ordered[..i], TailOf)
    {
      var f := ordered[i];
      var name := TailOf(f);
      WalkStep(ordered, i, data, order);
      ghost var visited := Visit(data, f);
      if name !in data {
        OpenThenAdd(data, f);
        data := data[name := AircraftEntry(name, f.plane.typeCode, 0, FirstWaypoint(f.route))];
        order := order + [name];
      } else {
        SeenVisit(data, f);
      }
      data := data[name := data[name].(hours := data[name].hours + f.flightTime)];
      assert data == visited;
      i := i + 1;
    }
    assert ordered[..i] == ordered;
  }

  /** The dictionary the walk has built once the flights of `done` are seen. */
  function Tally(done: seq<Flight>): map<string, AircraftEntry> {
    if done == [] then map[]
    else Visit(Tally(done[..|done| - 1]), done[|done| - 1])
  }

  /** One visit of the walk: open the entry of a tail met for the first
      time, then add the flight's time to its tail's entry. */
  function Visit(data: map<string, AircraftEntry>, f: Flight): map<string, AircraftEntry> {
    var name := TailOf(f);
    var data1 := if name in data then data else data[name := AircraftEntry(name, f.plane.typeCode, 0, FirstWaypoint(f.route))];
    data1[name := data1[name].(hours := data1[name].hours + f.flightTime)]
  }

  /** What one more flight does to the walk's dictionary and its list of
      tails. */
  lemma WalkStep(s: seq<Flight>, i: nat, data: map<string, AircraftEntry>, order: seq<string>)
    requires i < |s|
    requires data == Tally(s[..i]) && order == FirstSeen(s[..i], TailOf)
    ensures TailOf(s[i]) in data <==> TailOf(s[i]) in order
    ensures Tally(s[..i + 1]) == Visit(data, s[i])
    ensures FirstSeen(s[..i + 1], TailOf) == if TailOf(s[i]) in order then order else order + [TailOf(s[i])]
  {
    assert s[..i + 1][..i] == s[..i];
    TallyKey(s[..i], TailOf(s[i]));
  }

  /** The dictionary holds an entry for exactly the tails met so far. */
  lemma TallyKey(done: seq<Flight>, t: string)
    ensures t in Tally(done) <==> t in FirstSeen(done, TailOf)
  {
    TallyTallied(done);
  }

  /** Every tail met has an entry in the dictionary. */
  lemma TallyKeysListed(done: seq<Flight>)
    ensures forall t | t in FirstSeen(done, TailOf) :: t in Tally(done)
  {
    TallyTallied(done);
  }

  /** The dictionary's entries read off in the order their tails were first
      met are the specification's entries. */
  lemma TallyEntries(ordered: seq<Flight>, values: seq<AircraftEntry>)
    requires forall t | t in FirstSeen(ordered, TailOf) :: t in Tally(ordered)
    requires |values| == |FirstSeen(ordered, TailOf)|
    requires forall j | 0 <= j < |values| :: values[j] == Tally(ordered)[FirstSeen(ordered, TailOf)[j]]
    ensures forall t | t in FirstSeen(ordered, TailOf) :: FirstOfTail(ordered, t).Some?
    ensures values == Entries(ordered, FirstSeen(ordered, TailOf))
  {
    var order := FirstSeen(ordered, TailOf);
    TallyTallied(ordered);
    TailsSeen(ordered, order);
    SameEntries(values, ordered, order);
  }

  /** Every entry of the dictionary is tallied over the flights seen. */
  lemma {:induction false} TallyTallied(done: seq<Flight>)
    ensures TallyState(Tally(done), FirstSeen(done, TailOf), done)
    decreases |done|
  {
    if done != [] {
      var init, f := done[..|done| - 1], done[|done| - 1];
      TallyTallied(init);
      assert done == init + [f];
      TallyVisit(Tally(init), init, f);
    }
  }

  /** What the walk keeps once the flights of `done` are seen: the tails in
      the order first met, one tallied entry for each. */
  ghost predicate TallyState(data: map<string, AircraftEntry>, order: seq<string>, done: seq<Flight>) {
    order == FirstSeen(done, TailOf) &&
    (forall t :: t in data <==> t in order) &&
    (forall t | t in data :: Tallied(data[t], done, t))
  }

  /** One visit keeps every entry tallied and the keys those of the tails met. */
  lemma TallyVisit(data: map<string, AircraftEntry>, done: seq<Flight>, f: Flight)
    requires TallyState(data, FirstSeen(done, TailOf), done)
    ensures TallyState(Visit(data, f), FirstSeen(done + [f], TailOf), done + [f])
  {
    var e := VisitPrepared(data, done, f);
    var next := Visit(data, f);
    Advance(data, e, next, done, f);
    VisitKeys(data, done, f);
  }

  /** The entry a visit adds the flight's time to is ready to take it. */
  lemma VisitPrepared(data: map<string, AircraftEntry>, done: seq<Flight>, f: Flight) returns (e: AircraftEntry)
    requires TallyState(data, FirstSeen(done, TailOf), done)
    ensures Prepared(e, done, f)
    ensures Visit(data, f) == data[TailOf(f) := e.(hours := e.hours + f.flightTime)]
  {
    var name := TailOf(f);
    if name in data {
      e := data[name];
      TalliedPrepared(e, done, f);
      SeenVisit(data, f);
    } else {
      e := AircraftEntry(name, f.plane.typeCode, 0, FirstWaypoint(f.route));
      NewEntryPrepared(done, f);
      UnseenVisit(data, f);
    }
  }

  lemma SeenVisit(data: map<string, AircraftEntry>, f: Flight)
    requires TailOf(f) in data
    ensures Visit(data, f) == data[TailOf(f) := data[TailOf(f)].(hours := data[TailOf(f)].hours + f.flightTime)]
  {
  }

  lemma UnseenVisit(data: map<string, AircraftEntry>, f: Flight)
    requires TailOf(f) !in data
    ensures var e := AircraftEntry(TailOf(f), f.plane.typeCode, 0, FirstWaypoint(f.route));
      Visit(data, f) == data[TailOf(f) := e.(hours := e.hours + f.flightTime)]
  {
    var name := TailOf(f);
    var e := AircraftEntry(name, f.plane.typeCode, 0, FirstWaypoint(f.route));
    var added := e.(hours := e.hours + f.flightTime);
    assert data[name := e][name := added] == data[name := added];
  }

  /** A tail met for the first time: the visit opens its entry, then adds
      the flight's time to it. */
  lemma OpenThenAdd(data: map<string, AircraftEntry>, f: Flight)
    requires TailOf(f) !in data
    ensures var e := AircraftEntry(TailOf(f), f.plane.typeCode, 0, FirstWaypoint(f.route));
      Visit(data, f) == data[TailOf(f) := e][TailOf(f) := e.(hours := e.hours + f.flightTime)]
  {
  }

  /** After a visit the keys are the tails met so far, the new one included. */
  lemma VisitKeys(data: map<string, AircraftEntry>, done: seq<Flight>, f: Flight)
    requires forall t :: t in data <==> t in FirstSeen(done, TailOf)
    ensures forall t :: t in Visit(data, f) <==> t in FirstSeen(done + [f], TailOf)
  {
    FirstSeenSnoc(done, f, TailOf);
  }

  /** An entry ready to take flight `f` after the flights of `done`: its
      type and location are final, its hours those of `done`. */
  predicate Prepared(e: AircraftEntry, done: seq<Flight>, f: Flight) {
    var first := FirstOfTail(done + [f], TailOf(f));
    first.Some? &&
    e.tailNumber == TailOf(f) &&
    e.typeCode == first.value.plane.typeCode &&
    e.location == FirstWaypoint(first.value.route) &&
    e.hours == Total(done, FlightTime, OfTail(TailOf(f)))
  }

  lemma FirstOfTailSnoc(done: seq<Flight>, f: Flight, t: string)
    ensures FirstOfTail(done + [f], t) ==
      if FirstOfTail(done, t).Some? then FirstOfTail(done, t)
      else if TailOf(f) == t then Some(f) else None
  {
    var after := done + [f];
    assert after[..|after| - 1] == done;
  }

  /** The first flight of a tail opens an entry with no hours yet. */
  lemma NewEntryPrepared(done: seq<Flight>, f: Flight)
    requires TailOf(f) !in FirstSeen(done, TailOf)
    ensures Prepared(AircraftEntry(TailOf(f), f.plane.typeCode, 0, FirstWaypoint(f.route)), done, f)
  {
    var t := TailOf(f);
    assert forall g | g in done :: !Holds(OfTail(t), g) by {
      FirstSeenKeys(done, TailOf);
    }
    TotalNoneHold(done, FlightTime, OfTail(t));
    FirstOfTailEarliest(done, t);
    FirstOfTailSnoc(done, f, t);
  }

  /** A tail seen before keeps its type and location. */
  lemma TalliedPrepared(e: AircraftEntry, done: seq<Flight>, f: Flight)
    requires Tallied(e, done, TailOf(f))
    ensures Prepared(e, done, f)
  {
    FirstOfTailSnoc(done, f, TailOf(f));
  }

  /** Adding the flight's time to its tail's entry keeps every entry tallied. */
  lemma Advance(m: map<string, AircraftEntry>, e: AircraftEntry, next: map<string, AircraftEntry>, done: seq<Flight>, f: Flight)
    requires Prepared(e, done, f)
    requires forall t | t in m && t != TailOf(f) :: Tallied(m[t], done, t)
    requires next == m[TailOf(f) := e.(hours := e.hours + f.flightTime)]
    ensures forall t | t in next :: Tallied(next[t], done + [f], t)
  {
    forall t | t in next ensures Tallied(next[t], done + [f], t) {
      if t == TailOf(f) {
        PreparedTallied(e, done, f);
      } else {
        OtherTailStays(m[t], done, f, t);
      }
    }
  }

  lemma PreparedTallied(e: AircraftEntry, done: seq<Flight>, f: Flight)
    requires Prepared(e, done, f)
    ensures Tallied(e.(hours := e.hours + f.flightTime), done + [f], TailOf(f))
  {
    TotalSnoc(done, f, FlightTime, OfTail(TailOf(f)));
  }

  lemma OtherTailStays(e: AircraftEntry, done: seq<Flight>, f: Flight, t: string)
    requires Tallied(e, done, t) && t != TailOf(f)
    ensures Tallied(e, done + [f], t)
  {
    FirstOfTailSnoc(done, f, t);
    TotalSnoc(done, f, FlightTime, OfTail(t));
  }

  /** Read off in the order of first sight, the tallied entries are the
      specification's entries. */
  lemma SameEntries(values: seq<AircraftEntry>, ordered: seq<Flight>, tails: seq<string>)
    requires forall t | t in tails :: FirstOfTail(ordered, t).Some?
    requires |values| == |tails|
    requires forall j | 0 <= j < |tails| :: Tallied(values[j], ordered, tails[j])
    ensures values == Entries(ordered, tails)
  {
    var spec := Entries(ordered, tails);
    forall j | 0 <= j < |tails| ensures values[j] == spec[j] {
      TalliedUnique(values[j], spec[j], ordered, tails[j]);
    }
  }

  lemma TalliedUnique(a: AircraftEntry, b: AircraftEntry, done: seq<Flight>, t: string)
    requires Tallied(a, done, t) && Tallied(b, done, t)
    ensures a == b
  {
  }

  function EntryHours(e: AircraftEntry): int {
    e.hours
  }

  function TailCondition(t: string): Condition {
    OfTail(t)
  }

  lemma {:induction false} EntriesSum(ordered: seq<Flight>, tails: seq<string>)
    requires forall t | t in tails :: FirstOfTail(ordered, t).Some?
    ensures SumOf(Entries(ordered, tails), EntryHours) == SumTotals(ordered, FlightTime, ConditionsOf(tails, TailCondition))
    decreases |tails|
  {
    if tails != [] {
      var init := tails[..|tails| - 1];
      assert forall t | t in init :: t in tails;
      EntriesSum(ordered, init);
      EntriesSumLast(ordered, tails);
      TotalsSumLast(ordered, tails);
    }
  }

  lemma EntriesSumLast(ordered: seq<Flight>, tails: seq<string>)
    requires tails != [] && forall t | t in tails :: FirstOfTail(ordered, t).Some?
    ensures var init := tails[..|tails| - 1];
      (forall t | t in init :: t in tails) &&
      SumOf(Entries(ordered, tails), EntryHours) ==
        SumOf(Entries(ordered, init), EntryHours) + Total(ordered, FlightTime, OfTail(tails[|tails| - 1]))
  {
    var init := tails[..|tails| - 1];
    assert forall t | t in init :: t in tails;
    var entries := Entries(ordered, tails);
    assert entries[..|entries| - 1] == Entries(ordered, init);
  }

  lemma TotalsSumLast(ordered: seq<Flight>, tails: seq<string>)
    requires tails != []
    ensures SumTotals(ordered, FlightTime, ConditionsOf(tails, TailCondition)) ==
      SumTotals(ordered, FlightTime, ConditionsOf(tails[..|tails| - 1], TailCondition)) + Total(ordered, FlightTime, OfTail(tails[|tails| - 1]))
  {
    assert ConditionsOf(tails, TailCondition)[..|tails| - 1] == ConditionsOf(tails[..|tails| - 1], TailCondition);
  }

  /** The hours of all aircraft together are the pilot's total flight time. */
  lemma BreakdownHoursAddUp(flights: seq<Flight>)
    ensures SumOf(Breakdown(flights), EntryHours) == Total(flights, FlightTime, Always)
  {
    var ordered := ByPlaneThenNewestOrder(flights);
    var tails := FirstSeen(ordered, TailOf);
    TailsSeen(ordered, tails);
    SumOfPermutation(Breakdown(flights), Entries(ordered, tails), EntryHours);
    EntriesAddUp(ordered, tails);
    TotalPermutation(ordered, flights, FlightTime, Always);
  }

  /** Before sorting: the entries of all tails met add up to the total. */
  lemma EntriesAddUp(ordered: seq<Flight>, tails: seq<string>)
    requires tails == FirstSeen(ordered, TailOf)
    requires forall t | t in tails :: FirstOfTail(ordered, t).Some?
    ensures SumOf(Entries(ordered, tails), EntryHours) == Total(ordered, FlightTime, Always)
  {
    FirstSeenKeys(ordered, TailOf);
    EntriesSum(ordered, tails);
    KeyedPartition(ordered, tails, TailOf, TailCondition);
    TotalPartition(ordered, FlightTime, ConditionsOf(tails, TailCondition));
  }

  /** Each entry's hours are the flight time flown in planes with its tail
      number, and there is at least one such flight. */
  lemma BreakdownHours(flights: seq<Flight>)
    ensures forall e | e in Breakdown(flights) ::
      e.hours == Total(flights, FlightTime, OfTail(e.tailNumber)) &&
      exists f :: f in flights && TailOf(f) == e.tailNumber
  {
    var ordered := ByPlaneThenNewestOrder(flights);
    var tails := FirstSeen(ordered, TailOf);
    TailsSeen(ordered, tails);
    EntriesHours(ordered, flights, tails);
    SameMembers(Entries(ordered, tails), Breakdown(flights));
  }

  /** Before sorting: each entry holds its tail's total and the tail was flown. */
  lemma EntriesHours(ordered: seq<Flight>, flights: seq<Flight>, tails: seq<string>)
    requires multiset(ordered) == multiset(flights)
    requires forall t | t in tails :: FirstOfTail(ordered, t).Some?
    ensures forall e | e in Entries(ordered, tails) ::
      e.hours == Total(flights, FlightTime, OfTail(e.tailNumber)) &&
      exists f :: f in flights && TailOf(f) == e.tailNumber
  {
    var entries := Entries(ordered, tails);
    SameMembers(ordered, flights);
    forall e | e in entries
      ensures e.hours == Total(flights, FlightTime, OfTail(e.tailNumber))
      ensures exists f :: f in flights && TailOf(f) == e.tailNumber
    {
      var i :| 0 <= i < |entries| && entries[i] == e;
      TotalPermutation(ordered, flights, FlightTime, OfTail(e.tailNumber));
      FirstOfTailEarliest(ordered, e.tailNumber);
    }
  }

  /** Every tail number flown has an entry. */
  lemma BreakdownCovers(flights: seq<Flight>)
    ensures forall f | f in flights :: exists e :: e in Breakdown(flights) && e.tailNumber == TailOf(f)
  {
    var ordered := ByPlaneThenNewestOrder(flights);
    var tails := FirstSeen(ordered, TailOf);
    FirstSeenKeys(ordered, TailOf);
    TailsSeen(ordered, tails);
    var entries := Entries(ordered, tails);
    SameMembers(entries, Breakdown(flights));
    SameMembers(ordered, flights);
    forall f | f in flights ensures exists e :: e in Breakdown(flights) && e.tailNumber == TailOf(f) {
      var i := IndexOf(tails, TailOf(f));
      assert entries[i] in entries;
    }
  }

  /** No tail number has two entries. */
  lemma BreakdownDistinct(flights: seq<Flight>)
    ensures DistinctKeys(Breakdown(flights), EntryTail)
  {
    var ordered := ByPlaneThenNewestOrder(flights);
    var tails := FirstSeen(ordered, TailOf);
    FirstSeenKeys(ordered, TailOf);
    TailsSeen(ordered, tails);
    var entries := Entries(ordered, tails);
    forall i, j | 0 <= i < j < |entries| ensures EntryTail(entries[i]) != EntryTail(entries[j]) {
      assert EntryTail(entries[i]) == tails[i] && EntryTail(entries[j]) == tails[j];
    }
    DistinctKeysPermutation(entries, Breakdown(flights), EntryTail);
  }

  /** The entries come most hours first. */
  lemma BreakdownSorted(flights: seq<Flight>)
    ensures forall i, j | 0 <= i < j < |Breakdown(flights)| :: Breakdown(flights)[j].hours <= Breakdown(flights)[i].hours
  {
    var r := Breakdown(flights);
    assert forall i, j | 0 <= i < j < |r| :: KeyLe(MostHoursFirst(r[i]), MostHoursFirst(r[j]));
  }

  /** Flight `f` is the one the entry takes its type and location from: a
      flight in a plane with the entry's tail number, of the lowest plane id
      among those planes, and the newest in that plane. */
  predicate SourceFlight(e: AircraftEntry, f: Flight, flights: seq<Flight>) {
    f in flights && TailOf(f) == e.tailNumber &&
    e.typeCode == f.plane.typeCode && e.location == FirstWaypoint(f.route) &&
    forall g | g in flights && TailOf(g) == e.tailNumber ::
      f.plane.id < g.plane.id || (f.plane.id == g.plane.id && Ordinal(g.date) <= Ordinal(f.date))
  }

  /** Each entry's type and location are those of its source flight. */
  lemma BreakdownSource(flights: seq<Flight>)
    ensures forall e | e in Breakdown(flights) :: exists f :: SourceFlight(e, f, flights)
  {
    var ordered := ByPlaneThenNewestOrder(flights);
    var tails := FirstSeen(ordered, TailOf);
    TailsSeen(ordered, tails);
    EntriesSource(ordered, flights, tails);
    SameMembers(Entries(ordered, tails), Breakdown(flights));
  }

  /** Before sorting: each entry has its source flight. */
  lemma EntriesSource(ordered: seq<Flight>, flights: seq<Flight>, tails: seq<string>)
    requires ordered == ByPlaneThenNewestOrder(flights)
    requires forall t | t in tails :: FirstOfTail(ordered, t).Some?
    ensures forall e | e in Entries(ordered, tails) :: exists f :: SourceFlight(e, f, flights)
  {
    var entries := Entries(ordered, tails);
    forall e | e in entries ensures exists f :: SourceFlight(e, f, flights) {
      var i :| 0 <= i < |entries| && entries[i] == e;
      EarliestIsSource(e, ordered, flights, tails[i]);
    }
  }

  lemma EarliestIsSource(e: AircraftEntry, ordered: seq<Flight>, flights: seq<Flight>, t: string)
    requires ordered == ByPlaneThenNewestOrder(flights)
    requires Tallied(e, ordered, t)
    ensures SourceFlight(e, FirstOfTail(ordered, t).value, flights)
  {
    var f := FirstOfTail(ordered, t).value;
    FirstOfTailEarliest(ordered, t);
    var k :| 0 <= k < |ordered| && ordered[k] == f && TailOf(ordered[k]) == t &&
             (forall j | 0 <= j < k :: TailOf(ordered[j]) != t);
    SameMembers(ordered, flights);
    EarliestOfAll(ordered, flights, k);
  }

  /** The first flight of a tail in the sorted order is, among all flights
      of that tail, of the lowest plane id and the newest in that plane. */
  lemma EarliestOfAll(ordered: seq<Flight>, flights: seq<Flight>, k: nat)
    requires SortedBy(ordered, ByPlaneThenNewest)
    requires forall g | g in flights :: g in ordered
    requires k < |ordered| && forall j | 0 <= j < k :: TailOf(ordered[j]) != TailOf(ordered[k])
    ensures var f := ordered[k];
      forall g | g in flights && TailOf(g) == TailOf(f) ::
        f.plane.id < g.plane.id || (f.plane.id == g.plane.id && Ordinal(g.date) <= Ordinal(f.date))
  {
    var f := ordered[k];
    forall g | g in flights && TailOf(g) == TailOf(f)
      ensures f.plane.id < g.plane.id || (f.plane.id == g.plane.id && Ordinal(g.date) <= Ordinal(f.date))
    {
      var m :| 0 <= m < |ordered| && ordered[m] == g;
      EarliestBefore(ordered, k, m);
    }
  }

  /** In the order by plane and newest first, the first flight of a tail
      comes before every other flight of that tail. */
  lemma EarliestBefore(ordered: seq<Flight>, k: nat, m: nat)
    requires SortedBy(ordered, ByPlaneThenNewest)
    requires k < |ordered| && m < |ordered| && TailOf(ordered[m]) == TailOf(ordered[k])
    requires forall j | 0 <= j < k :: TailOf(ordered[j]) != TailOf(ordered[k])
    ensures var f, g := ordered[k], ordered[m];
      f.plane.id < g.plane.id || (f.plane.id == g.plane.id && Ordinal(g.date) <= Ordinal(f.date))
  {
    if m != k {
      assert KeyLe(ByPlaneThenNewest(ordered[k]), ByPlaneThenNewest(ordered[m]));
    }
  }

  /** The most and least flown aircraft and how many there are. */
  datatype Highlights = Highlights(mostFlown: Option<AircraftEntry>, leastFlown: Option<AircraftEntry>, totalAircraft: nat)

  function AircraftHighlights(flights: seq<Flight>): (r: Highlights)
    ensures r.mostFlown.None? <==> flights == []
    ensures r.leastFlown.None? <==> flights == []
    ensures r.totalAircraft == |Breakdown(flights)|
    ensures r.mostFlown.Some? ==>
      (r.mostFlown.value in Breakdown(flights) &&
       forall e | e in Breakdown(flights) :: e.hours <= r.mostFlown.value.hours)
    ensures r.leastFlown.Some? ==>
      (r.leastFlown.value in Breakdown(flights) &&
       forall e | e in Breakdown(flights) :: r.leastFlown.value.hours <= e.hours)
  {
    var b := Breakdown(flights);
    BreakdownEmpty(flights);
    BreakdownExtremes(flights);
    if b == [] then Highlights(None, None, 0)
    else Highlights(Some(b[0]), Some(b[|b| - 1]), |b|)
  }

  /** The first entry has the most hours and the last the fewest. */
  lemma BreakdownExtremes(flights: seq<Flight>)
    ensures var b := Breakdown(flights);
      b != [] ==> forall e | e in b :: e.hours <= b[0].hours && b[|b| - 1].hours <= e.hours
  {
    BreakdownSorted(flights);
    EndsOfDescending(Breakdown(flights));
  }

  lemma EndsOfDescending(b: seq<AircraftEntry>)
    requires forall i, j | 0 <= i < j < |b| :: b[j].hours <= b[i].hours
    ensures b != [] ==> forall e | e in b :: e.hours <= b[0].hours && b[|b| - 1].hours <= e.hours
  {
    forall e | e in b ensures e.hours <= b[0].hours && b[|b| - 1].hours <= e.hours {
      var i :| 0 <= i < |b| && b[i] == e;
    }
  }

  /** There are entries exactly when there are flights. */
  lemma BreakdownEmpty(flights: seq<Flight>)
    ensures Breakdown(flights) == [] <==> flights == []
  {
    if flights != [] {
      BreakdownCovers(flights);
      assert flights[0] in flights;
    }
  }

  /** The number of aircraft is the number of distinct tail numbers flown. */
  lemma AircraftCount(flights: seq<Flight>)
    ensures AircraftHighlights(flights).totalAircraft == |set f | f in flights :: TailOf(f)|
  {
    var b := Breakdown(flights);
    FlownListed(flights);
    ListedFlown(flights);
    assert (set f | f in flights :: TailOf(f)) == (set e | e in b :: EntryTail(e));
    BreakdownDistinct(flights);
    EntryTailsCard(b);
  }

  lemma FlownListed(flights: seq<Flight>)
    ensures (set f | f in flights :: TailOf(f)) <= (set e | e in Breakdown(flights) :: EntryTail(e))
  {
    BreakdownCovers(flights);
    var flown, listed := set f | f in flights :: TailOf(f), set e | e in Breakdown(flights) :: EntryTail(e);
    forall t | t in flown ensures t in listed {
      var f :| f in flights && TailOf(f) == t;
      var e :| e in Breakdown(flights) && e.tailNumber == TailOf(f);
    }
  }

  lemma ListedFlown(flights: seq<Flight>)
    ensures (set e | e in Breakdown(flights) :: EntryTail(e)) <= (set f | f in flights :: TailOf(f))
  {
    BreakdownHours(flights);
    var flown, listed := set f | f in flights :: TailOf(f), set e | e in Breakdown(flights) :: EntryTail(e);
    forall t | t in listed ensures t in flown {
      var e :| e in Breakdown(flights) && EntryTail(e) == t;
      var f :| f in flights && TailOf(f) == e.tailNumber;
    }
  }

  /** Entries with distinct tail numbers: as many tail numbers as entries. */
  lemma {:induction false} EntryTailsCard(b: seq<AircraftEntry>)
    requires DistinctKeys(b, EntryTail)
    ensures |set e | e in b :: EntryTail(e)| == |b|
    decreases |b|
  {
    if b != [] {
      var init := b[..|b| - 1];
      assert DistinctKeys(init, EntryTail);
      EntryTailsCard(init);
      LastTailNew(b);
    }
  }

  /** The last entry of a list with distinct tails adds one tail to the set. */
  lemma LastTailNew(b: seq<AircraftEntry>)
    requires b != [] && DistinctKeys(b, EntryTail)
    ensures var init, x := b[..|b| - 1], b[|b| - 1];
      && EntryTail(x) !in (set e | e in init :: EntryTail(e))
      && (set e | e in b :: EntryTail(e)) == (set e | e in init :: EntryTail(e)) + {EntryTail(x)}
  {
    var init, x := b[..|b| - 1], b[|b| - 1];
    assert b == init + [x];
    forall e | e in init ensures EntryTail(e) != EntryTail(x) {
      var j :| 0 <= j < |init| && init[j] == e;
    }
  }
}
