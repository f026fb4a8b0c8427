/** The passenger and instructor leaderboards: people ranked by how many
    times they flew with the pilot, then by the flight time they shared,
    cut to a limit.

    Both boards walk a stream of slots, one per count the board makes: a
    slot names a person and carries the flight time of the flight it comes
    from. The passenger board has one slot per passenger of role PA on each
    flight; the instructor board one per flight whose instructor has role I
    or E. */
module Leaderboards {
  import opened Wrappers
  import opened Sequences
  import opened Logbook

  datatype Slot = Slot(person: Person, time: Tenths)

  datatype BoardEntry = BoardEntry(person: Person, flightCount: nat, totalTime: Tenths)

  function SlotId(s: Slot): int {
    s.person.id
  }

  function EntryId(e: BoardEntry): int {
    e.person.id
  }

  // ---------------------------------------------------------------------
  // The slots of each board
  // ---------------------------------------------------------------------

  /** The passenger slots of one flight: its passengers of role PA, in order. */
  function SeatSlots(ps: seq<Person>, time: Tenths): seq<Slot> {
    if ps == [] then []
    else
      var p := ps[|ps| - 1];
      SeatSlots(ps[..|ps| - 1], time) + (if p.role == Passenger then [Slot(p, time)] else [])
  }

  function PassengerSlots(flights: seq<Flight>): seq<Slot> {
    if flights == [] then []
    else
      var f := flights[|flights| - 1];
      PassengerSlots(flights[..|flights| - 1]) + SeatSlots(f.passengers, f.flightTime)
  }

  /** The flight's instructor is set and has role I or E. */
  predicate Instructed(f: Flight) {
    f.instructor.Some? && (f.instructor.value.role == Instructor || f.instructor.value.role == Examiner)
  }

  function InstructorSlots(flights: seq<Flight>): seq<Slot> {
    if flights == [] then []
    else
      var f := flights[|flights| - 1];
      InstructorSlots(flights[..|flights| - 1]) + (if Instructed(f) then [Slot(f.instructor.value, f.flightTime)] else [])
  }

  // ---------------------------------------------------------------------
  // What the board counts for one person
  // ---------------------------------------------------------------------

  function CountOf(slots: seq<Slot>, id: int): nat {
    if slots == [] then 0
    else CountOf(slots[..|slots| - 1], id) + (if SlotId(slots[|slots| - 1]) == id then 1 else 0)
  }

  function TimeOf(slots: seq<Slot>, id: int): nat {
    if slots == [] then 0
    else TimeOf(slots[..|slots| - 1], id) + (if SlotId(slots[|slots| - 1]) == id then slots[|slots| - 1].time else 0)
  }

  /** The person of the first slot with this id: the record the board keeps. */
  function FirstPerson(slots: seq<Slot>, id: int): Option<Person> {
    if slots == [] then None
    else
      var p := FirstPerson(slots[..|slots| - 1], id);
      if p.Some? then p
      else if SlotId(slots[|slots| - 1]) == id then Some(slots[|slots| - 1].person)
      else None
  }

  lemma SlotSnoc(slots: seq<Slot>, s: Slot, id: int)
    ensures CountOf(slots + [s], id) == CountOf(slots, id) + (if SlotId(s) == id then 1 else 0)
    ensures TimeOf(slots + [s], id) == TimeOf(slots, id) + (if SlotId(s) == id then s.time else 0)
    ensures FirstPerson(slots + [s], id) ==
      if FirstPerson(slots, id).Some? then FirstPerson(slots, id)
      else if SlotId(s) == id then Some(s.person) else None
  {
    assert (slots + [s])[..|slots|] == slots;
  }

  /** A person is first met exactly when one of the slots is theirs, and
      the record kept has their id. */
  lemma {:induction false} FirstPersonFound(slots: seq<Slot>, id: int)
    ensures FirstPerson(slots, id).Some? <==> exists s :: s in slots && SlotId(s) == id
    ensures FirstPerson(slots, id).Some? ==>
      FirstPerson(slots, id).value.id == id &&
      exists s :: s in slots && s.person == FirstPerson(slots, id).value
    decreases |slots|
  {
    if slots != [] {
      var init := slots[..|slots| - 1];
      assert slots == init + [slots[|slots| - 1]];
      FirstPersonFound(init, id);
    }
  }

  /** A person with a slot is counted at least once. */
  lemma {:induction false} CountOfPositive(slots: seq<Slot>, id: int)
    ensures CountOf(slots, id) > 0 <==> exists s :: s in slots && SlotId(s) == id
    decreases |slots|
  {
    if slots != [] {
      var init := slots[..|slots| - 1];
      assert slots == init + [slots[|slots| - 1]];
      CountOfPositive(init, id);
    }
  }

  // ---------------------------------------------------------------------
  // The dictionary the walk builds
  // ---------------------------------------------------------------------

  /** One slot visited: open the person's record when first met, then count
      the flight and add its time. */
  function Visit(stats: map<int, BoardEntry>, s: Slot): map<int, BoardEntry> {
    var id := SlotId(s);
    var withRecord := if id in stats then stats else stats[id := BoardEntry(s.person, 0, 0)];
    withRecord[id := withRecord[id].(flightCount := withRecord[id].flightCount + 1, totalTime := withRecord[id].totalTime + s.time)]
  }

  /** The dictionary after the slots of `done`. */
  function Tally(done: seq<Slot>): map<int, BoardEntry> {
    if done == [] then map[] else Visit(Tally(done[..|done| - 1]), done[|done| - 1])
  }

  /** The record of `id` once the slots of `done` are seen. */
  predicate Counted(e: BoardEntry, done: seq<Slot>, id: int) {
    FirstPerson(done, id) == Some(e.person) &&
    e.flightCount == CountOf(done, id) &&
    e.totalTime == TimeOf(done, id)
  }

  ghost predicate TallyState(stats: map<int, BoardEntry>, done: seq<Slot>) {
    (forall id :: id in stats <==> id in FirstSeen(done, SlotId)) &&
    (forall id | id in stats :: Counted(stats[id], done, id))
  }

  lemma TallyVisit(stats: map<int, BoardEntry>, done: seq<Slot>, s: Slot)
    requires TallyState(stats, done)
    ensures TallyState(Visit(stats, s), done + [s])
  {
    FirstSeenSnoc(done, s, SlotId);
    var next := Visit(stats, s);
    forall id | id in next ensures Counted(next[id], done + [s], id) {
      SlotSnoc(done, s, id);
      if id == SlotId(s) && id !in stats {
        FirstSeenKeys(done, SlotId);
        NoSlots(done, id);
      }
    }
  }

  /** A person without a slot is neither counted nor met. */
  lemma {:induction false} NoSlots(slots: seq<Slot>, id: int)
    requires forall s | s in slots :: SlotId(s) != id
    ensures CountOf(slots, id) == 0 && TimeOf(slots, id) == 0 && FirstPerson(slots, id).None?
    decreases |slots|
  {
    if slots != [] {
      NoSlots(slots[..|slots| - 1], id);
    }
  }

  /** Every record of the dictionary counts its person's slots. */
  lemma {:induction false} TallyCounted(done: seq<Slot>)
    ensures TallyState(Tally(done), done)
    decreases |done|
  {
    if done != [] {
      var init := done[..|done| - 1];
      TallyCounted(init);
      assert done == init + [done[|done| - 1]];
      TallyVisit(Tally(init), init, done[|done| - 1]);
    }
  }

  /** What one more slot does to the dictionary and to the ids met. */
  lemma WalkStep(done: seq<Slot>, s: Slot)
    ensures SlotId(s) in Tally(done) <==> SlotId(s) in FirstSeen(done, SlotId)
    ensures Tally(done + [s]) == Visit(Tally(done), s)
    ensures FirstSeen(done + [s], SlotId) ==
      if SlotId(s) in FirstSeen(done, SlotId) then FirstSeen(done, SlotId)
      else FirstSeen(done, SlotId) + [SlotId(s)]
  {
    assert (done + [s])[..|done|] == done;
    TallyCounted(done);
    FirstSeenSnoc(done, s, SlotId);
  }

  // ---------------------------------------------------------------------
  // The board
  // ---------------------------------------------------------------------

  /** Most flights first, then most time. */
  function RankKey(e: BoardEntry): Key {
    (-(e.flightCount as int), -(e.totalTime as int))
  }

  /** The records of the listed ids, in the order listed. */
  function Entries(slots: seq<Slot>, ids: seq<int>): (r: seq<BoardEntry>)
    requires forall id | id in ids :: FirstPerson(slots, id).Some?
    ensures |r| == |ids|
    ensures forall i | 0 <= i < |ids| :: Counted(r[i], slots, ids[i])
  {
    if ids == [] then []
    else
      var id := ids[|ids| - 1];
      Entries(slots, ids[..|ids| - 1]) + [BoardEntry(FirstPerson(slots, id).value, CountOf(slots, id), TimeOf(slots, id))]
  }

  lemma IdsSeen(slots: seq<Slot>)
    ensures forall id | id in FirstSeen(slots, SlotId) :: FirstPerson(slots, id).Some?
  {
    FirstSeenKeys(slots, SlotId);
    forall id | id in FirstSeen(slots, SlotId) ensures FirstPerson(slots, id).Some? {
      FirstPersonFound(slots, id);
    }
  }

  /** The board: one record per person met, in the order first met, ranked
      by count and then time, most first, and cut to `limit` as Python's
      `[:limit]` does. */
  function Board(slots: seq<Slot>, limit: int): seq<BoardEntry> {
    IdsSeen(slots);
    Slice(SortBy(Entries(slots, FirstSeen(slots, SlotId)), RankKey), limit)
  }

  /** Counts one flight of `time` for person `p`, opening the person's
      record, and listing the id, when first met. */
  method Record(stats: map<int, BoardEntry>, order: seq<int>, p: Person, time: Tenths)
    returns (stats': map<int, BoardEntry>, order': seq<int>)
    ensures stats' == Visit(stats, Slot(p, time))
    ensures order' == if p.id in stats then order else order + [p.id]
  {
    stats', order' := stats, order;
    if p.id !in stats' {
      stats' := stats'[p.id := BoardEntry(p, 0, 0)];
      order' := order' + [p.id];
    }
    stats' := stats'[p.id := stats'[p.id].(flightCount := stats'[p.id].flightCount + 1, totalTime := stats'[p.id].totalTime + time)];
  }

  /** Reads the dictionary off in the order first met, ranks it and cuts it. */
  method Rank(stats: map<int, BoardEntry>, order: seq<int>, ghost slots: seq<Slot>, limit: int) returns (r: seq<BoardEntry>)
    requires stats == Tally(slots) && order == FirstSeen(slots, SlotId)
    ensures r == Board(slots, limit)
  {
    TallyRead(slots);
    var values := seq(|order|, j requires 0 <= j < |order| => stats[order[j]]);
    ReadOffEntries(slots, values);
    r := Slice(SortBy(values, RankKey), limit);
  }

  lemma TallyRead(slots: seq<Slot>)
    ensures forall j | 0 <= j < |FirstSeen(slots, SlotId)| :: FirstSeen(slots, SlotId)[j] in Tally(slots)
  {
    TallyCounted(slots);
  }

  lemma ReadOffEntries(slots: seq<Slot>, values: seq<BoardEntry>)
    requires forall j | 0 <= j < |FirstSeen(slots, SlotId)| :: FirstSeen(slots, SlotId)[j] in Tally(slots)
    requires |values| == |FirstSeen(slots, SlotId)|
    requires forall j | 0 <= j < |values| :: values[j] == Tally(slots)[FirstSeen(slots, SlotId)[j]]
    ensures forall id | id in FirstSeen(slots, SlotId) :: FirstPerson(slots, id).Some?
    ensures values == Entries(slots, FirstSeen(slots, SlotId))
  {
    var ids := FirstSeen(slots, SlotId);
    TallyCounted(slots);
    IdsSeen(slots);
    var spec := Entries(slots, ids);
    forall j | 0 <= j < |ids| ensures values[j] == spec[j] {
      assert Counted(values[j], slots, ids[j]) && Counted(spec[j], slots, ids[j]);
    }
  }

  /** The passenger board: the pilot's flights walked in order, each
      passenger of role PA on a flight counted once for that flight. */
  method PassengerLeaderboard(flights: seq<Flight>, limit: int) returns (r: seq<BoardEntry>)
    ensures r == Board(PassengerSlots(flights), limit)
  {
    var stats: map<int, BoardEntry> := map[];
    var order: seq<int> := [];
    ghost var seen: seq<Slot> := [];
    var i := 0;
    while i < |flights|
      invariant 0 <= i <= |flights|
      invariant seen == PassengerSlots(flights[..i])
      invariant stats == Tally(seen) && order == FirstSeen(seen, SlotId)
    {
      var f := flights[i];
      ghost var before := seen;
      var j := 0;
      while j < |f.passengers|
        invariant 0 <= j <= |f.passengers|
        invariant seen == before + SeatSlots(f.passengers[..j], f.flightTime)
        invariant stats == Tally(seen) && order == FirstSeen(seen, SlotId)
      {
        var passenger := f.passengers[j];
        SeatStep(before, f.passengers, j, f.flightTime);
        if passenger.role == Passenger {
          WalkStep(seen, Slot(passenger, f.flightTime));
          stats, order := Record(stats, order, passenger, f.flightTime);
          seen := seen + [Slot(passenger, f.flightTime)];
        }
        j := j + 1;
      }
      FlightStep(flights, i);
      i := i + 1;
    }
    assert flights[..i] == flights;
    r := Rank(stats, order, seen, limit);
  }

  lemma SeatStep(before: seq<Slot>, ps: seq<Person>, j: nat, time: Tenths)
    requires j < |ps|
    ensures before + SeatSlots(ps[..j + 1], time) ==
      before + SeatSlots(ps[..j], time) + (if ps[j].role == Passenger then [Slot(ps[j], time)] else [])
  {
    assert ps[..j + 1][..j] == ps[..j];
  }

  lemma FlightStep(flights: seq<Flight>, i: nat)
    requires i < |flights|
    ensures PassengerSlots(flights[..i + 1]) ==
      PassengerSlots(flights[..i]) + SeatSlots(flights[i].passengers[..|flights[i].passengers|], flights[i].flightTime)
  {
    assert flights[..i + 1][..i] == flights[..i];
    assert flights[i].passengers[..|flights[i].passengers|] == flights[i].passengers;
  }

  /** The instructor board: the flights whose instructor has role I or E,
      each counted once for its instructor. */
  method InstructorLeaderboard(flights: seq<Flight>, limit: int) returns (r: seq<BoardEntry>)
    ensures r == Board(InstructorSlots(flights), limit)
  {
    var stats: map<int, BoardEntry> := map[];
    var order: seq<int> := [];
    ghost var seen: seq<Slot> := [];
    var i := 0;
    while i < |flights|
      invariant 0 <= i <= |flights|
      invariant seen == InstructorSlots(flights[..i])
      invariant stats == Tally(seen) && order == FirstSeen(seen, SlotId)
    {
      var f := flights[i];
      InstructorStep(flights, i);
      if Instructed(f) {
        var instructor := f.instructor.value;
        WalkStep(seen, Slot(instructor, f.flightTime));
        stats, order := Record(stats, order, instructor, f.flightTime);
        seen := seen + [Slot(instructor, f.flightTime)];
      }
      i := i + 1;
    }
    assert flights[..i] == flights;
    r := Rank(stats, order, seen, limit);
  }

  lemma InstructorStep(flights: seq<Flight>, i: nat)
    requires i < |flights|
    ensures InstructorSlots(flights[..i + 1]) ==
      InstructorSlots(flights[..i]) +
      (if Instructed(flights[i]) then [Slot(flights[i].instructor.value, flights[i].flightTime)] else [])
  {
    assert flights[..i + 1][..i] == flights[..i];
  }

  // ---------------------------------------------------------------------
  // What the boards promise
  // ---------------------------------------------------------------------

  /** The board ranks by count, most first, and by time among equal counts. */
  lemma BoardRanked(slots: seq<Slot>, limit: int)
    ensures forall i, j | 0 <= i < j < |Board(slots, limit)| ::
      Board(slots, limit)[j].flightCount < Board(slots, limit)[i].flightCount ||
      (Board(slots, limit)[j].flightCount == Board(slots, limit)[i].flightCount &&
       Board(slots, limit)[j].totalTime <= Board(slots, limit)[i].totalTime)
  {
    IdsSeen(slots);
    SliceSorted(SortBy(Entries(slots, FirstSeen(slots, SlotId)), RankKey), limit, RankKey);
    RankedByCount(Board(slots, limit));
  }

  lemma RankedByCount(b: seq<BoardEntry>)
    requires SortedBy(b, RankKey)
    ensures forall i, j | 0 <= i < j < |b| ::
      b[j].flightCount < b[i].flightCount || (b[j].flightCount == b[i].flightCount && b[j].totalTime <= b[i].totalTime)
  {
    assert forall i, j | 0 <= i < j < |b| :: KeyLe(RankKey(b[i]), RankKey(b[j]));
  }

  /** Each record counts its person's slots and time, at least one slot,
      and is the person first met with that id. */
  lemma BoardCounts(slots: seq<Slot>, limit: int)
    ensures forall e | e in Board(slots, limit) ::
      e.flightCount == CountOf(slots, EntryId(e)) && e.flightCount > 0 &&
      e.totalTime == TimeOf(slots, EntryId(e)) &&
      FirstPerson(slots, EntryId(e)) == Some(e.person)
  {
    var ids := FirstSeen(slots, SlotId);
    IdsSeen(slots);
    var entries := Entries(slots, ids);
    var sorted := SortBy(entries, RankKey);
    SameMembers(entries, sorted);
    forall e | e in Board(slots, limit)
      ensures e.flightCount == CountOf(slots, EntryId(e)) && e.flightCount > 0
      ensures e.totalTime == TimeOf(slots, EntryId(e))
      ensures FirstPerson(slots, EntryId(e)) == Some(e.person)
    {
      assert e in sorted;
      var i :| 0 <= i < |entries| && entries[i] == e;
      FirstPersonFound(slots, ids[i]);
      CountOfPositive(slots, ids[i]);
    }
  }

  /** No person has two records. */
  lemma BoardDistinct(slots: seq<Slot>, limit: int)
    ensures DistinctKeys(Board(slots, limit), EntryId)
  {
    var ids := FirstSeen(slots, SlotId);
    IdsSeen(slots);
    FirstSeenKeys(slots, SlotId);
    var entries := Entries(slots, ids);
    forall i, j | 0 <= i < j < |entries| ensures EntryId(entries[i]) != EntryId(entries[j]) {
      FirstPersonFound(slots, ids[i]);
      FirstPersonFound(slots, ids[j]);
    }
    var sorted := SortBy(entries, RankKey);
    DistinctKeysPermutation(entries, sorted, EntryId);
  }

  /** The board has at most `limit` records, and when it has fewer, every
      person met has one. */
  lemma BoardSize(slots: seq<Slot>, limit: int)
    ensures limit >= 0 ==> |Board(slots, limit)| <= limit
    ensures 0 <= limit && |Board(slots, limit)| < limit ==>
      forall s | s in slots :: exists e :: e in Board(slots, limit) && EntryId(e) == SlotId(s)
  {
    var ids := FirstSeen(slots, SlotId);
    IdsSeen(slots);
    FirstSeenKeys(slots, SlotId);
    var entries := Entries(slots, ids);
    var sorted := SortBy(entries, RankKey);
    if 0 <= limit && |Board(slots, limit)| < limit {
      assert Board(slots, limit) == sorted;
      SameMembers(entries, sorted);
      forall s | s in slots ensures exists e :: e in Board(slots, limit) && EntryId(e) == SlotId(s) {
        var i := IndexOf(ids, SlotId(s));
        FirstPersonFound(slots, ids[i]);
        assert entries[i] in entries;
      }
    }
  }

  /** A person met but left off the board ranks no higher than anyone on it. */
  lemma BoardTop(slots: seq<Slot>, limit: int, id: int, e: BoardEntry)
    requires CountOf(slots, id) > 0
    requires forall x | x in Board(slots, limit) :: EntryId(x) != id
    requires e in Board(slots, limit)
    ensures CountOf(slots, id) < e.flightCount ||
            (CountOf(slots, id) == e.flightCount && TimeOf(slots, id) <= e.totalTime)
  {
    IdsSeen(slots);
    var sorted := SortBy(Entries(slots, FirstSeen(slots, SlotId)), RankKey);
    var b := Board(slots, limit);
    var left := RecordOf(slots, id);
    PrefixOutranks(sorted, |b|, RankKey, left, e);
  }

  /** The record of a person met, among the ranked records. */
  lemma RecordOf(slots: seq<Slot>, id: int) returns (x: BoardEntry)
    requires CountOf(slots, id) > 0
    ensures forall j | 0 <= j < |FirstSeen(slots, SlotId)| :: FirstPerson(slots, FirstSeen(slots, SlotId)[j]).Some?
    ensures x in multiset(SortBy(Entries(slots, FirstSeen(slots, SlotId)), RankKey))
    ensures EntryId(x) == id && x.flightCount == CountOf(slots, id) && x.totalTime == TimeOf(slots, id)
  {
    var ids := FirstSeen(slots, SlotId);
    IdsSeen(slots);
    FirstSeenKeys(slots, SlotId);
    CountOfPositive(slots, id);
    var entries := Entries(slots, ids);
    var k := IndexOf(ids, id);
    x := entries[k];
    FirstPersonFound(slots, id);
    assert x in multiset(entries);
  }

  // ---------------------------------------------------------------------
  // The two boards over the flights
  // ---------------------------------------------------------------------

  lemma {:induction false} PassengerSlotsRole(flights: seq<Flight>)
    ensures forall s | s in PassengerSlots(flights) :: s.person.role == Passenger
    decreases |flights|
  {
    if flights != [] {
      PassengerSlotsRole(flights[..|flights| - 1]);
      SeatSlotsRole(flights[|flights| - 1].passengers, flights[|flights| - 1].flightTime);
    }
  }

  lemma {:induction false} SeatSlotsRole(ps: seq<Person>, time: Tenths)
    ensures forall s | s in SeatSlots(ps, time) :: s.person.role == Passenger
    decreases |ps|
  {
    if ps != [] {
      SeatSlotsRole(ps[..|ps| - 1], time);
    }
  }

  /** Everyone on the passenger board has role PA. */
  lemma PassengerBoardRoles(flights: seq<Flight>, limit: int)
    ensures forall e | e in Board(PassengerSlots(flights), limit) :: e.person.role == Passenger
  {
    var slots := PassengerSlots(flights);
    BoardCounts(slots, limit);
    PassengerSlotsRole(flights);
    forall e | e in Board(slots, limit) ensures e.person.role == Passenger {
      FirstPersonFound(slots, EntryId(e));
    }
  }

  lemma {:induction false} InstructorSlotsRole(flights: seq<Flight>)
    ensures forall s | s in InstructorSlots(flights) :: s.person.role == Instructor || s.person.role == Examiner
    decreases |flights|
  {
    if flights != [] {
      InstructorSlotsRole(flights[..|flights| - 1]);
    }
  }

  /** Everyone on the instructor board has role I or E. */
  lemma InstructorBoardRoles(flights: seq<Flight>, limit: int)
    ensures forall e | e in Board(InstructorSlots(flights), limit) :: e.person.role == Instructor || e.person.role == Examiner
  {
    var slots := InstructorSlots(flights);
    BoardCounts(slots, limit);
    InstructorSlotsRole(flights);
    forall e | e in Board(slots, limit) ensures e.person.role == Instructor || e.person.role == Examiner {
      FirstPersonFound(slots, EntryId(e));
    }
  }

  /** An instructor's count is the number of flights they instructed with
      role I or E, and their time the flight time of those flights. */
  lemma {:induction false} InstructorCounts(flights: seq<Flight>, id: int)
    ensures CountOf(InstructorSlots(flights), id) == Count(flights, InstructedBy(id))
    ensures TimeOf(InstructorSlots(flights), id) == Total(flights, FlightTime, InstructedBy(id))
    decreases |flights|
  {
    if flights != [] {
      var init, f := flights[..|flights| - 1], flights[|flights| - 1];
      InstructorCounts(init, id);
      assert flights == init + [f];
      TotalSnoc(init, f, Unit, InstructedBy(id));
      TotalSnoc(init, f, FlightTime, InstructedBy(id));
      InstructorOne(init, f, id);
    }
  }

  lemma InstructorOne(init: seq<Flight>, f: Flight, id: int)
    ensures CountOf(InstructorSlots(init + [f]), id) == CountOf(InstructorSlots(init), id) + Amount(f, Unit, InstructedBy(id))
    ensures TimeOf(InstructorSlots(init + [f]), id) == TimeOf(InstructorSlots(init), id) + Amount(f, FlightTime, InstructedBy(id))
  {
    assert (init + [f])[..|init|] == init;
    if Instructed(f) {
      SlotSnoc(InstructorSlots(init), Slot(f.instructor.value, f.flightTime), id);
    } else {
      assert InstructorSlots(init + [f]) == InstructorSlots(init);
    }
  }

  lemma {:induction false} SlotsAppend(a: seq<Slot>, b: seq<Slot>, id: int)
    ensures CountOf(a + b, id) == CountOf(a, id) + CountOf(b, id)
    ensures TimeOf(a + b, id) == TimeOf(a, id) + TimeOf(b, id)
    decreases |b|
  {
    if b != [] {
      var init, s := b[..|b| - 1], b[|b| - 1];
      SlotsAppend(a, init, id);
      assert a + b == (a + init) + [s];
      SlotSnoc(a + init, s, id);
      SlotSnoc(init, s, id);
      assert b == init + [s];
    } else {
      assert a + b == a;
    }
  }

  /** One flight brings a passenger as many slots as seats they hold on it. */
  lemma {:induction false} SeatCounts(ps: seq<Person>, time: Tenths, id: int)
    ensures CountOf(SeatSlots(ps, time), id) == PassengerSeats(ps, id)
    ensures TimeOf(SeatSlots(ps, time), id) == PassengerSeats(ps, id) * time
    decreases |ps|
  {
    if ps != [] {
      var init := ps[..|ps| - 1];
      var k := if ps[|ps| - 1].id == id && ps[|ps| - 1].role == Passenger then 1 else 0;
      SeatCounts(init, time, id);
      SeatOne(ps, time, id);
      SeatTime(PassengerSeats(init, id), k, time);
    }
  }

  /** The last person of a list adds one slot when they hold a passenger seat. */
  lemma SeatOne(ps: seq<Person>, time: Tenths, id: int)
    requires ps != []
    ensures var p := ps[|ps| - 1];
      && CountOf(SeatSlots(ps, time), id) == CountOf(SeatSlots(ps[..|ps| - 1], time), id) + (if p.id == id && p.role == Passenger then 1 else 0)
      && TimeOf(SeatSlots(ps, time), id) == TimeOf(SeatSlots(ps[..|ps| - 1], time), id) + (if p.id == id && p.role == Passenger then time else 0)
  {
    var p := ps[|ps| - 1];
    if p.role == Passenger {
      SlotSnoc(SeatSlots(ps[..|ps| - 1], time), Slot(p, time), id);
    } else {
      assert SeatSlots(ps, time) == SeatSlots(ps[..|ps| - 1], time);
    }
  }

  lemma SeatTime(n: nat, k: nat, time: nat)
    requires k <= 1
    ensures (n + k) * time == n * time + (if k == 1 then time else 0)
  {
  }

  /** When nobody holds two seats on one flight (the many-to-many link
      holds each passenger once), a passenger's count is the number of
      flights they were on and their time the flight time of those flights. */
  lemma {:induction false} PassengerCounts(flights: seq<Flight>, id: int)
    requires forall f | f in flights :: PassengerSeats(f.passengers, id) <= 1
    ensures CountOf(PassengerSlots(flights), id) == Count(flights, CarriesPassenger(id))
    ensures TimeOf(PassengerSlots(flights), id) == Total(flights, FlightTime, CarriesPassenger(id))
    decreases |flights|
  {
    if flights != [] {
      var init, f := flights[..|flights| - 1], flights[|flights| - 1];
      assert flights == init + [f];
      PassengerCounts(init, id);
      TotalSnoc(init, f, Unit, CarriesPassenger(id));
      TotalSnoc(init, f, FlightTime, CarriesPassenger(id));
      PassengerOne(init, f, id);
    }
  }

  lemma PassengerOne(init: seq<Flight>, f: Flight, id: int)
    requires PassengerSeats(f.passengers, id) <= 1
    ensures CountOf(PassengerSlots(init + [f]), id) == CountOf(PassengerSlots(init), id) + Amount(f, Unit, CarriesPassenger(id))
    ensures TimeOf(PassengerSlots(init + [f]), id) == TimeOf(PassengerSlots(init), id) + Amount(f, FlightTime, CarriesPassenger(id))
  {
    var seats := SeatSlots(f.passengers, f.flightTime);
    assert PassengerSlots(init + [f]) == PassengerSlots(init) + seats by {
      assert (init + [f])[..|init|] == init;
    }
    SlotsAppend(PassengerSlots(init), seats, id);
    SeatAmounts(f, id);
  }

  /** A flight holding the passenger at most once brings them its amounts. */
  lemma SeatAmounts(f: Flight, id: int)
    requires PassengerSeats(f.passengers, id) <= 1
    ensures CountOf(SeatSlots(f.passengers, f.flightTime), id) == Amount(f, Unit, CarriesPassenger(id))
    ensures TimeOf(SeatSlots(f.passengers, f.flightTime), id) == Amount(f, FlightTime, CarriesPassenger(id))
  {
    SeatCounts(f.passengers, f.flightTime, id);
  }
}
