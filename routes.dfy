/** Airports, routes and their text labels (`Airport.__str__`,
    `Route.__str__`), and the ordering of a route's steps by `sequence`. */
module Routes {
  import opened Sequences

  datatype Airport = Airport(code: string, name: string, latitude: real, longitude: real,
                             country: string, municipality: string)

  /** One row of the route/airport link table: the airport visited at
      position `sequence` of the route. */
  datatype RouteStep = RouteStep(sequence: nat, waypoint: Airport)

  datatype Route = Route(id: int, name: string, steps: seq<RouteStep>)

  /** "<code> - <name>". */
  function AirportLabel(a: Airport): (r: string)
    ensures |r| == |a.code| + 3 + |a.name|
    ensures r[..|a.code|] == a.code && r[|a.code| + 3..] == a.name
    ensures r[|a.code|..|a.code| + 3] == " - "
  {
    a.code + " - " + a.name
  }

  function SequenceKey(s: RouteStep): Key {
    (s.sequence, 0)
  }

  /** The route's steps by ascending `sequence` (the link table's default ordering). */
  function OrderedSteps(r: Route): (steps: seq<RouteStep>)
    ensures multiset(steps) == multiset(r.steps)
    ensures forall i, j :: 0 <= i < j < |steps| ==> steps[i].sequence <= steps[j].sequence
  {
    var s := SortBy(r.steps, SequenceKey);
    assert forall i, j :: 0 <= i < j < |s| ==> KeyLe(SequenceKey(s[i]), SequenceKey(s[j]));
    s
  }

  function Codes(steps: seq<RouteStep>): (codes: seq<string>)
    ensures |codes| == |steps|
    ensures forall i :: 0 <= i < |steps| ==> codes[i] == steps[i].waypoint.code
  {
    if steps == [] then [] else Codes(steps[..|steps| - 1]) + [steps[|steps| - 1].waypoint.code]
  }

  /** Python's `sep.join(parts)`. */
  function Join(parts: seq<string>, sep: string): string {
    if parts == [] then ""
    else if |parts| == 1 then parts[0]
    else Join(parts[..|parts| - 1], sep) + sep + parts[|parts| - 1]
  }

  const Arrow := " -> "
  const NoWaypoints := "No waypoints assigned"

  /** "<name>: (<code> -> <code> -> ...)", or the "No waypoints assigned"
      placeholder when the route has no steps. */
  function RouteLabel(r: Route): (text: string)
    ensures |r.name| + 4 <= |text|
    ensures text[..|r.name| + 3] == r.name + ": (" && text[|text| - 1] == ')'
  {
    var stops := Codes(OrderedSteps(r));
    var path := if |stops| > 0 then Join(stops, Arrow) else NoWaypoints;
    r.name + ": (" + path + ")"
  }

  // ---------------------------------------------------------------------
  // Properties of the labels

  lemma RouteLabelEmpty(r: Route)
    requires r.steps == []
    ensures RouteLabel(r) == r.name + ": (No waypoints assigned)"
  {
  }

  /** The width of the parts with a separator after each. */
  function Width(parts: seq<string>, sep: string): nat {
    if parts == [] then 0 else Width(parts[..|parts| - 1], sep) + |parts[|parts| - 1]| + |sep|
  }
  /** Where part `i` starts in a joined string: after every earlier part
      and its separator. */
  function Offset(parts: seq<string>, sep: string, i: nat): nat
    requires i <= |parts|
  {
    Width(parts[..i], sep)
  }
  /** `part` occurs in `s` starting at position `at`. */
  ghost predicate PartAt(s: string, part: string, at: int) {
    0 <= at && at + |part| <= |s| && s[at..at + |part|] == part
  }
  ghost predicate PartsLaid(s: string, parts: seq<string>, sep: string) {
    forall i :: 0 <= i < |parts| ==> PartAt(s, parts[i], Offset(parts, sep, i))
  }
  ghost predicate SepsLaid(s: string, parts: seq<string>, sep: string) {
    forall i :: 0 <= i < |parts| - 1 ==> PartAt(s, sep, Offset(parts, sep, i) + |parts[i]|)
  }
  /** `s` is laid out as the parts in order with `sep` between each two and
      nothing else: each part at its offset, each separator right after its
      part, and the string ends with the last part. */
  ghost predicate JoinedBy(s: string, parts: seq<string>, sep: string)
    requires parts != []
  {
    && |s| == Offset(parts, sep, |parts| - 1) + |parts[|parts| - 1]|
    && PartsLaid(s, parts, sep)
    && SepsLaid(s, parts, sep)
  }
  lemma PartAtExtend(s: string, t: string, part: string, at: int)
    requires PartAt(s, part, at)
    ensures PartAt(s + t, part, at)
  {
    assert (s + t)[at..at + |part|] == s[at..at + |part|];
  }
  lemma LastPart(j: string, t: string, last: string, sep: string)
    requires t == sep + last
    ensures PartAt(j + t, last, |j| + |sep|)
  {
    var s := j + t;
    assert s[|j| + |sep|..|j| + |sep| + |last|] == last;
  }
  lemma SepPart(j: string, last: string, sep: string)
    ensures PartAt(j + (sep + last), sep, |j|)
  {
    var s := j + (sep + last);
    assert s[|j|..|j| + |sep|] == sep;
  }
  lemma OffsetSnoc(init: seq<string>, last: string, sep: string, i: nat)
    requires i <= |init|
    ensures Offset(init + [last], sep, i) == Offset(init, sep, i)
  {
    assert (init + [last])[..i] == init[..i];
  }
  lemma OffsetLast(j: string, init: seq<string>, last: string, sep: string)
    requires init != [] && |j| == Offset(init, sep, |init| - 1) + |init[|init| - 1]|
    ensures Offset(init + [last], sep, |init|) == |j| + |sep|
  {
    var n := |init|;
    assert (init + [last])[..n] == init;
    assert init[..n - 1] == init[..n][..n - 1];
    assert init[..n] == init;
  }
  lemma PartsSnoc(j: string, init: seq<string>, last: string, sep: string)
    requires PartsLaid(j, init, sep)
    requires Offset(init + [last], sep, |init|) == |j| + |sep|
    ensures PartsLaid(j + (sep + last), init + [last], sep)
  {
    var parts := init + [last];
    var t := sep + last;
    forall i | 0 <= i < |parts|
      ensures PartAt(j + t, parts[i], Offset(parts, sep, i))
    {
      if i < |init| {
        OffsetSnoc(init, last, sep, i);
        assert PartAt(j, init[i], Offset(init, sep, i));
        PartAtExtend(j, t, init[i], Offset(init, sep, i));
      } else {
        LastPart(j, t, last, sep);
      }
    }
  }
  lemma SepsSnoc(j: string, init: seq<string>, last: string, sep: string)
    requires init != [] && SepsLaid(j, init, sep)
    requires |j| == Offset(init, sep, |init| - 1) + |init[|init| - 1]|
    ensures SepsLaid(j + (sep + last), init + [last], sep)
  {
    var parts := init + [last];
    var t := sep + last;
    forall i | 0 <= i < |init|
      ensures PartAt(j + t, sep, Offset(parts, sep, i) + |parts[i]|)
    {
      OffsetSnoc(init, last, sep, i);
      if i < |init| - 1 {
        assert PartAt(j, sep, Offset(init, sep, i) + |init[i]|);
        PartAtExtend(j, t, sep, Offset(init, sep, i) + |init[i]|);
      } else {
        SepPart(j, last, sep);
      }
    }
  }
  /** Appending a separator and one more part to a laid-out string lays
      out the longer list. */
  lemma LayoutSnoc(j: string, init: seq<string>, last: string, sep: string)
    requires init != [] && JoinedBy(j, init, sep)
    ensures JoinedBy(j + (sep + last), init + [last], sep)
  {
    OffsetLast(j, init, last, sep);
    PartsSnoc(j, init, last, sep);
    SepsSnoc(j, init, last, sep);
  }

  lemma LayoutSingle(p: string, sep: string)
    ensures JoinedBy(p, [p], sep)
  {
    assert [p][..0] == [];
    assert p[0..|p|] == p;
    assert PartAt(p, [p][0], Offset([p], sep, 0));
  }

  /** `sep.join(parts)` puts the parts in order with one separator between
      each two. */
  lemma {:induction false} JoinLayout(parts: seq<string>, sep: string)
    requires parts != []
    ensures JoinedBy(Join(parts, sep), parts, sep)
    decreases |parts|
  {
    var n := |parts|;
    if n == 1 {
      assert parts == [parts[0]];
      LayoutSingle(parts[0], sep);
    } else {
      var init, last := parts[..n - 1], parts[n - 1];
      var j := Join(init, sep);
      JoinLayout(init, sep);
      LayoutSnoc(j, init, last, sep);
      assert parts == init + [last];
      assert Join(parts, sep) == j + (sep + last);
    }
  }

  /** A route with steps renders as its name, ": (", the codes of its steps
      in ascending `sequence` with " -> " between each two, and ")". */
  lemma RouteLabelNonEmpty(r: Route)
    requires r.steps != []
    ensures var text := RouteLabel(r);
      var codes := Codes(OrderedSteps(r));
      && codes != []
      && |r.name| + 4 <= |text|
      && text[..|r.name| + 3] == r.name + ": ("
      && text[|text| - 1] == ')'
      && JoinedBy(text[|r.name| + 3..|text| - 1], codes, Arrow)
  {
    var codes := Codes(OrderedSteps(r));
    assert |OrderedSteps(r)| == |multiset(r.steps)| > 0;
    var path := Join(codes, Arrow);
    JoinLayout(codes, Arrow);
    var text := r.name + ": (" + path + ")";
    assert RouteLabel(r) == text;
    assert text[|r.name| + 3..|text| - 1] == path;
  }

  function CountChar(s: string, c: char): nat {
    if s == [] then 0 else CountChar(s[..|s| - 1], c) + (if s[|s| - 1] == c then 1 else 0)
  }

  lemma {:induction false} CountCharAppend(a: string, b: string, c: char)
    ensures CountChar(a + b, c) == CountChar(a, c) + CountChar(b, c)
    decreases |b|
  {
    if b == [] {
      assert a + b == a;
    } else {
      assert (a + b)[..|a + b| - 1] == a + b[..|b| - 1];
      CountCharAppend(a, b[..|b| - 1], c);
    }
  }

  function CountCharAll(parts: seq<string>, c: char): nat {
    if parts == [] then 0 else CountCharAll(parts[..|parts| - 1], c) + CountChar(parts[|parts| - 1], c)
  }

  /** Joining `n` codes with " -> " puts exactly `n - 1` arrows between them:
      the '>' characters of the result are those of the codes plus one per
      separator. */
  lemma {:induction false} JoinArrowCount(parts: seq<string>)
    requires parts != []
    ensures CountChar(Join(parts, Arrow), '>') == CountCharAll(parts, '>') + |parts| - 1
    decreases |parts|
  {
    if |parts| == 1 {
      assert parts[..0] == [];
    } else {
      var init := parts[..|parts| - 1];
      JoinArrowCount(init);
      CountCharAppend(Join(init, Arrow) + Arrow, parts[|parts| - 1], '>');
      CountCharAppend(Join(init, Arrow), Arrow, '>');
      assert CountChar(Arrow, '>') == 1 by {
        assert " "[..0] == [] && " -"[..1] == " " && " ->"[..2] == " -" && Arrow[..3] == " ->";
        assert CountChar(" ", '>') == 0;
        assert CountChar(" -", '>') == 0;
        assert CountChar(" ->", '>') == 1;
      }
    }
  }

  /** The length of a joined string: the parts plus one separator between each two. */
  lemma {:induction false} JoinLength(parts: seq<string>, sep: string)
    requires parts != []
    ensures |Join(parts, sep)| == SumOf(parts, Length) + (|parts| - 1) * |sep|
    decreases |parts|
  {
    if |parts| > 1 {
      JoinLength(parts[..|parts| - 1], sep);
    } else {
      assert parts[..0] == [];
    }
  }

  function Length(s: string): int {
    |s|
  }

  // ---------------------------------------------------------------------
  // `sequence` is unique within a route, so the step order is total

  ghost predicate UniqueSequences(steps: seq<RouteStep>) {
    forall i, j :: 0 <= i < |steps| && 0 <= j < |steps| && i != j ==> steps[i].sequence != steps[j].sequence
  }

  ghost predicate StrictlyIncreasing(steps: seq<RouteStep>) {
    forall i, j :: 0 <= i < j < |steps| ==> steps[i].sequence < steps[j].sequence
  }

  /** Reordering steps keeps their sequence numbers pairwise distinct. */
  lemma UniquePermutation(a: seq<RouteStep>, b: seq<RouteStep>)
    requires multiset(a) == multiset(b) && UniqueSequences(a)
    ensures UniqueSequences(b)
  {
    forall i, j | 0 <= i < |b| && 0 <= j < |b| && i != j
      ensures b[i].sequence != b[j].sequence
    {
      DistinctOrigins(a, b, i, j);
      var p, q :| 0 <= p < |a| && 0 <= q < |a| && p != q && a[p] == b[i] && a[q] == b[j];
      assert a[p].sequence != a[q].sequence;
    }
  }

  /** With unique sequence numbers the ascending order has no ties. */
  lemma OrderedStepsStrict(r: Route)
    requires UniqueSequences(r.steps)
    ensures StrictlyIncreasing(OrderedSteps(r))
  {
    UniquePermutation(r.steps, OrderedSteps(r));
  }

  /** Two strictly increasing arrangements of the same steps start alike. */
  lemma StrictOrderHead(a: seq<RouteStep>, b: seq<RouteStep>)
    requires multiset(a) == multiset(b) && a != []
    requires StrictlyIncreasing(a) && StrictlyIncreasing(b)
    ensures b != [] && a[0] == b[0]
  {
    assert a[0] in multiset(b);
    var j :| 0 <= j < |b| && b[j] == a[0];
    assert b[0] in multiset(a);
    var i :| 0 <= i < |a| && a[i] == b[0];
    assert a[0].sequence <= a[i].sequence;
    assert b[0].sequence <= b[j].sequence;
    assert j == 0;
  }

  /** Two strictly increasing arrangements of the same steps are identical. */
  lemma {:induction false} StrictOrderUnique(a: seq<RouteStep>, b: seq<RouteStep>)
    requires multiset(a) == multiset(b)
    requires StrictlyIncreasing(a) && StrictlyIncreasing(b)
    ensures a == b
    decreases |a|
  {
    if a == [] {
      assert |b| == |multiset(b)| == 0;
    } else {
      StrictOrderHead(a, b);
      var x := a[0];
      assert a == [x] + a[1..];
      assert b == [x] + b[1..];
      assert multiset(a[1..]) == multiset(a) - multiset{x};
      assert multiset(b[1..]) == multiset(b) - multiset{x};
      StrictOrderUnique(a[1..], b[1..]);
    }
  }

  /** A route's label does not depend on the order its steps are stored in. */
  lemma RouteLabelIndependentOfStorage(r1: Route, r2: Route)
    requires r1.name == r2.name && multiset(r1.steps) == multiset(r2.steps)
    requires UniqueSequences(r1.steps)
    ensures OrderedSteps(r1) == OrderedSteps(r2)
    ensures RouteLabel(r1) == RouteLabel(r2)
  {
    UniquePermutation(r1.steps, r2.steps);
    OrderedStepsStrict(r1);
    OrderedStepsStrict(r2);
    StrictOrderUnique(OrderedSteps(r1), OrderedSteps(r2));
  }
}
