/** Ordering, slicing, filtering and summing of sequences, as the logbook
    gets them from the database (`order_by`, `filter`, `Sum`), from
    Python's `sorted` and from list slicing.

    Sort keys are pairs of integers compared lexicographically, ascending; a
    descending order (`order_by('-date')`, `reverse=True`) negates its key.
    The sort is a stable insertion sort: elements with equal keys keep the
    order they had in the input. */
module Sequences {

  type Key = (int, int)

  predicate KeyLe(a: Key, b: Key) {
    a.0 < b.0 || (a.0 == b.0 && a.1 <= b.1)
  }

  predicate SortedBy<T>(s: seq<T>, key: T -> Key) {
    forall i, j :: 0 <= i < j < |s| ==> KeyLe(key(s[i]), key(s[j]))
  }

  /** Inserts `x` after every element whose key is not greater than its own. */
  function Insert<T(==)>(x: T, s: seq<T>, key: T -> Key): (r: seq<T>)
    requires SortedBy(s, key)
    ensures multiset(r) == multiset(s) + multiset{x}
    ensures |r| == |s| + 1
    ensures SortedBy(r, key)
    decreases |s|
  {
    if s == [] then [x]
    else if !KeyLe(key(s[0]), key(x)) then
      InsertFront(x, s, key);
      [x] + s
    else
      var rest := Insert(x, s[1..], key);
      InsertBehind(x, s, rest, key);
      assert s == [s[0]] + s[1..];
      [s[0]] + rest
  }

  lemma InsertFront<T>(x: T, s: seq<T>, key: T -> Key)
    requires SortedBy(s, key) && s != [] && !KeyLe(key(s[0]), key(x))
    ensures SortedBy([x] + s, key)
  {
    forall j | 0 <= j < |s| ensures KeyLe(key(x), key(s[j])) {
      assert KeyLe(key(s[0]), key(s[j]));
    }
  }

  lemma InsertBehind<T>(x: T, s: seq<T>, rest: seq<T>, key: T -> Key)
    requires SortedBy(s, key) && s != [] && KeyLe(key(s[0]), key(x))
    requires SortedBy(rest, key) && multiset(rest) == multiset(s[1..]) + multiset{x}
    ensures SortedBy([s[0]] + rest, key)
  {
    forall j | 0 <= j < |rest| ensures KeyLe(key(s[0]), key(rest[j])) {
      assert rest[j] in multiset(rest);
      if rest[j] != x {
        assert rest[j] in s[1..];
      }
    }
  }

  /** The elements of `s` ordered by `key`, ties kept in input order. */
  function SortBy<T(==)>(s: seq<T>, key: T -> Key): (r: seq<T>)
    ensures multiset(r) == multiset(s)
    ensures |r| == |s|
    ensures SortedBy(r, key)
    decreases |s|
  {
    if s == [] then []
    else
      var init := s[..|s| - 1];
      assert s == init + [s[|s| - 1]];
      Insert(s[|s| - 1], SortBy(init, key), key)
  }

  /** The first element of the sorted sequence comes from the input and has
      the least key. */
  lemma SortedHead<T>(s: seq<T>, key: T -> Key)
    requires s != []
    ensures SortBy(s, key)[0] in s
    ensures forall x | x in s :: KeyLe(key(SortBy(s, key)[0]), key(x))
  {
    var r := SortBy(s, key);
    assert r[0] in multiset(s);
    forall x | x in s ensures KeyLe(key(r[0]), key(x)) {
      assert x in multiset(r);
      var j :| 0 <= j < |r| && r[j] == x;
      if j > 0 {
        assert KeyLe(key(r[0]), key(r[j]));
      }
    }
  }

  /** Python's `s[:limit]`: a negative limit drops that many from the end. */
  function Slice<T>(s: seq<T>, limit: int): (r: seq<T>)
    ensures limit >= 0 ==> |r| == if limit < |s| then limit else |s|
    ensures limit < 0 ==> |r| == if -limit < |s| then |s| + limit else 0
    ensures r == s[..|r|]
  {
    var n := if limit >= 0 then (if limit < |s| then limit else |s|)
             else (if -limit < |s| then |s| + limit else 0);
    s[..n]
  }

  /** Sum of `f` over a sequence. */
  function SumOf<T>(s: seq<T>, f: T -> int): int {
    if s == [] then 0 else SumOf(s[..|s| - 1], f) + f(s[|s| - 1])
  }

  lemma {:induction false} SumOfAppend<T>(a: seq<T>, b: seq<T>, f: T -> int)
    ensures SumOf(a + b, f) == SumOf(a, f) + SumOf(b, f)
    decreases |b|
  {
    if b == [] {
      assert a + b == a;
    } else {
      assert (a + b)[..|a + b| - 1] == a + b[..|b| - 1];
      SumOfAppend(a, b[..|b| - 1], f);
    }
  }

  /** Replacing one element changes the sum by the difference. */
  lemma SumOfUpdate<T>(s: seq<T>, k: nat, x: T, f: T -> int)
    requires k < |s|
    ensures SumOf(s[k := x], f) == SumOf(s, f) - f(s[k]) + f(x)
  {
    assert s == s[..k] + [s[k]] + s[k + 1..];
    assert s[k := x] == s[..k] + [x] + s[k + 1..];
    SumOfAppend(s[..k] + [s[k]], s[k + 1..], f);
    SumOfAppend(s[..k] + [x], s[k + 1..], f);
    SumOfAppend(s[..k], [s[k]], f);
    SumOfAppend(s[..k], [x], f);
  }

  /** Reordering a sequence does not change its sum. */
  lemma {:induction false} SumOfPermutation<T>(a: seq<T>, b: seq<T>, f: T -> int)
    requires multiset(a) == multiset(b)
    ensures SumOf(a, f) == SumOf(b, f)
    decreases |a|
  {
    if a != [] {
      var x := a[|a| - 1];
      assert x in multiset(b);
      var k :| 0 <= k < |b| && b[k] == x;
      var rest := b[..k] + b[k + 1..];
      assert b == b[..k] + [x] + b[k + 1..];
      assert a == a[..|a| - 1] + [x];
      assert multiset(b) == multiset(b[..k]) + multiset{x} + multiset(b[k + 1..]);
      assert multiset(rest) == multiset(b[..k]) + multiset(b[k + 1..]);
      assert multiset(a) == multiset(a[..|a| - 1]) + multiset{x};
      assert multiset(a[..|a| - 1]) == multiset(a) - multiset{x};
      assert multiset(a[..|a| - 1]) == multiset(rest);
      SumOfPermutation(a[..|a| - 1], rest, f);
      SumOfAppend(b[..k] + [x], b[k + 1..], f);
      SumOfAppend(b[..k], [x], f);
      SumOfAppend(b[..k], b[k + 1..], f);
    } else {
      assert |b| == |multiset(b)| == 0;
    }
  }

  /** The elements that satisfy `p`, in their order. */
  function Filter<T>(s: seq<T>, p: T -> bool): seq<T> {
    if s == [] then []
    else Filter(s[..|s| - 1], p) + (if p(s[|s| - 1]) then [s[|s| - 1]] else [])
  }

  /** The filtered elements are exactly the elements that satisfy `p`. */
  lemma {:induction false} FilterMembers<T>(s: seq<T>, p: T -> bool)
    ensures forall x | x in Filter(s, p) :: x in s && p(x)
    ensures forall x | x in s && p(x) :: x in Filter(s, p)
    decreases |s|
  {
    if s != [] {
      FilterMembers(s[..|s| - 1], p);
      assert s == s[..|s| - 1] + [s[|s| - 1]];
    }
  }

  /** Filtering distributes over concatenation, keeping order. */
  lemma {:induction false} FilterAppend<T>(a: seq<T>, b: seq<T>, p: T -> bool)
    ensures Filter(a + b, p) == Filter(a, p) + Filter(b, p)
    decreases |b|
  {
    if b == [] {
      assert a + b == a;
    } else {
      var b' := b[..|b| - 1];
      assert (a + b)[..|a + b| - 1] == a + b';
      FilterAppend(a, b', p);
    }
  }

  /** Filtering keeps a sequence ordered by an integer key. */
  lemma {:induction false} FilterSorted<T>(s: seq<T>, p: T -> bool, key: T -> int)
    requires forall i, j | 0 <= i < j < |s| :: key(s[i]) <= key(s[j])
    ensures forall i, j | 0 <= i < j < |Filter(s, p)| :: key(Filter(s, p)[i]) <= key(Filter(s, p)[j])
    decreases |s|
  {
    if s != [] {
      var init, x := s[..|s| - 1], s[|s| - 1];
      FilterSorted(init, p, key);
      FilterMembers(init, p);
      forall y | y in Filter(init, p) ensures key(y) <= key(x) {
        var i :| 0 <= i < |init| && init[i] == y;
        assert s[i] == y;
      }
    }
  }

  /** Filtering only drops elements. */
  lemma {:induction false} FilterSubMultiset<T>(s: seq<T>, p: T -> bool)
    ensures multiset(Filter(s, p)) <= multiset(s)
    decreases |s|
  {
    if s != [] {
      var init := s[..|s| - 1];
      FilterSubMultiset(init, p);
      assert s == init + [s[|s| - 1]];
    }
  }

  /** Dropping elements that add nothing keeps the sum. */
  lemma {:induction false} SumOfFilter<T>(s: seq<T>, p: T -> bool, f: T -> int)
    requires forall x | x in s && !p(x) :: f(x) == 0
    ensures SumOf(Filter(s, p), f) == SumOf(s, f)
    decreases |s|
  {
    if s != [] {
      var init, last := s[..|s| - 1], s[|s| - 1];
      assert s == init + [last] && last in s;
      assert forall x | x in init :: x in s;
      SumOfFilter(init, p, f);
      if p(last) {
        SumOfAppend(Filter(init, p), [last], f);
        assert [last][..0] == [];
      } else {
        assert Filter(s, p) == Filter(init, p) + [];
        assert Filter(s, p) == Filter(init, p);
        assert f(last) == 0;
      }
    }
  }

  /** A pointwise smaller summand gives a smaller sum. */
  lemma {:induction false} SumOfMonotone<T>(s: seq<T>, f: T -> int, g: T -> int)
    requires forall x | x in s :: f(x) <= g(x)
    ensures SumOf(s, f) <= SumOf(s, g)
    decreases |s|
  {
    if s != [] {
      assert s == s[..|s| - 1] + [s[|s| - 1]];
      SumOfMonotone(s[..|s| - 1], f, g);
    }
  }

  /** Summands that agree on the sequence give the same sum. */
  lemma {:induction false} SumOfCongruent<T>(s: seq<T>, f: T -> int, g: T -> int)
    requires forall x | x in s :: f(x) == g(x)
    ensures SumOf(s, f) == SumOf(s, g)
    decreases |s|
  {
    if s != [] {
      assert s == s[..|s| - 1] + [s[|s| - 1]];
      SumOfCongruent(s[..|s| - 1], f, g);
    }
  }

  lemma {:induction false} SumOfNonNegative<T>(s: seq<T>, f: T -> int)
    requires forall x :: f(x) >= 0
    ensures SumOf(s, f) >= 0
    decreases |s|
  {
    if s != [] {
      SumOfNonNegative(s[..|s| - 1], f);
    }
  }

  /** Summing a pointwise sum is summing each part. */
  lemma {:induction false} SumOfAdd<T>(s: seq<T>, f: T -> int, g: T -> int, h: T -> int)
    requires forall x | x in s :: h(x) == f(x) + g(x)
    ensures SumOf(s, h) == SumOf(s, f) + SumOf(s, g)
    decreases |s|
  {
    if s != [] {
      assert forall x | x in s[..|s| - 1] :: x in s;
      SumOfAdd(s[..|s| - 1], f, g, h);
    }
  }

  /** An element occurring twice in `b` occurs twice in any permutation of `b`. */
  lemma TwiceInPermutation<T>(a: seq<T>, b: seq<T>, lo: nat, hi: nat)
    requires multiset(a) == multiset(b) && lo < hi < |b| && b[lo] == b[hi]
    ensures exists p, q :: 0 <= p < |a| && 0 <= q < |a| && p != q && a[p] == b[lo] && a[q] == b[lo]
  {
    var x := b[hi];
    assert b == b[..hi] + [x] + b[hi + 1..];
    assert x in b[..hi];
    assert multiset(b)[x] == multiset(b[..hi])[x] + 1 + multiset(b[hi + 1..])[x];
    assert x in multiset(a);
    var p :| 0 <= p < |a| && a[p] == x;
    assert a == a[..p] + [x] + a[p + 1..];
    assert multiset(a)[x] == multiset(a[..p])[x] + 1 + multiset(a[p + 1..])[x];
    assert x in multiset(a[..p]) + multiset(a[p + 1..]);
    if x in a[..p] {
      var t :| 0 <= t < p && a[t] == x;
      assert a[t] == x && a[p] == x;
    } else {
      assert x in a[p + 1..];
      var t :| p + 1 <= t < |a| && a[t] == x;
      assert a[t] == x && a[p] == x;
    }
  }

  /** Two positions of `b` come from two positions of any permutation `a`. */
  lemma DistinctOrigins<T>(a: seq<T>, b: seq<T>, i: nat, j: nat)
    requires multiset(a) == multiset(b) && i < |b| && j < |b| && i != j
    ensures exists p, q :: 0 <= p < |a| && 0 <= q < |a| && p != q && a[p] == b[i] && a[q] == b[j]
  {
    if b[i] == b[j] {
      if i < j {
        TwiceInPermutation(a, b, i, j);
      } else {
        TwiceInPermutation(a, b, j, i);
      }
    } else {
      assert b[i] in multiset(a) && b[j] in multiset(a);
      var p :| 0 <= p < |a| && a[p] == b[i];
      var q :| 0 <= q < |a| && a[q] == b[j];
      assert p != q;
    }
  }

  /** What a prefix leaves of a sequence, counted with repetition, is its
      suffix. */
  lemma PrefixRemainder<T>(s: seq<T>, n: nat)
    requires n <= |s|
    ensures multiset(s) - multiset(s[..n]) == multiset(s[n..])
  {
    assert s == s[..n] + s[n..];
  }

  /** In a sequence ranked from highest down, nothing after the first `n`
      elements outranks any of them. */
  lemma TopOfRanked<T>(s: seq<T>, n: nat, rank: T -> int)
    requires n <= |s|
    requires forall i, j | 0 <= i < j < |s| :: rank(s[j]) <= rank(s[i])
    ensures forall g, i | g in multiset(s) - multiset(s[..n]) && 0 <= i < n :: rank(g) <= rank(s[i])
  {
    PrefixRemainder(s, n);
    forall g, i | g in multiset(s[n..]) && 0 <= i < n ensures rank(g) <= rank(s[i]) {
      var p :| 0 <= p < |s[n..]| && s[n..][p] == g;
      assert s[n + p] == g;
    }
  }

  /** No two elements share a key. */
  predicate DistinctKeys<T, K(==)>(s: seq<T>, keyOf: T -> K) {
    forall i, j | 0 <= i < j < |s| :: keyOf(s[i]) != keyOf(s[j])
  }

  /** Reordering keeps keys distinct. */
  lemma DistinctKeysPermutation<T, K>(a: seq<T>, b: seq<T>, keyOf: T -> K)
    requires multiset(a) == multiset(b) && DistinctKeys(a, keyOf)
    ensures DistinctKeys(b, keyOf)
  {
    forall i, j | 0 <= i < j < |b| ensures keyOf(b[i]) != keyOf(b[j]) {
      DistinctOrigins(a, b, i, j);
      var p, q :| 0 <= p < |a| && 0 <= q < |a| && p != q && a[p] == b[i] && a[q] == b[j];
      if p < q {
        assert keyOf(a[p]) != keyOf(a[q]);
      } else {
        assert keyOf(a[q]) != keyOf(a[p]);
      }
    }
  }

  /** The keys of `s`, each once, in the order they first occur. */
  function FirstSeen<T, K(==)>(s: seq<T>, keyOf: T -> K): seq<K> {
    if s == [] then []
    else
      var init := FirstSeen(s[..|s| - 1], keyOf);
      var x := s[|s| - 1];
      if keyOf(x) in init then init else init + [keyOf(x)]
  }

  /** The first-seen keys are distinct, each is the key of an element of
      `s`, and every element's key is among them. */
  lemma {:induction false} FirstSeenKeys<T, K>(s: seq<T>, keyOf: T -> K)
    ensures forall i, j | 0 <= i < j < |FirstSeen(s, keyOf)| :: FirstSeen(s, keyOf)[i] != FirstSeen(s, keyOf)[j]
    ensures forall k | k in FirstSeen(s, keyOf) :: exists x :: x in s && keyOf(x) == k
    ensures forall x | x in s :: keyOf(x) in FirstSeen(s, keyOf)
    decreases |s|
  {
    if s != [] {
      var init, x := s[..|s| - 1], s[|s| - 1];
      assert s == init + [x];
      FirstSeenKeys(init, keyOf);
    }
  }

  /** A permutation has the same members. */
  lemma SameMembers<T>(a: seq<T>, b: seq<T>)
    requires multiset(a) == multiset(b)
    ensures forall x | x in a :: x in b
    ensures forall x | x in b :: x in a
  {
    assert forall x | x in a :: x in multiset(b);
    assert forall x | x in b :: x in multiset(a);
  }

  /** In a sequence without repetitions, equal elements sit at the same position. */
  lemma SamePosition<K>(s: seq<K>, i: nat, j: nat)
    requires forall p, q | 0 <= p < q < |s| :: s[p] != s[q]
    requires i < |s| && j < |s| && s[i] == s[j]
    ensures i == j
  {
  }

  /** Position of an element of `s`. */
  function IndexOf<K(==)>(s: seq<K>, k: K): (i: nat)
    requires k in s
    ensures i < |s| && s[i] == k
  {
    if s[0] == k then 0 else 1 + IndexOf(s[1..], k)
  }

  /** Seeing one more element adds its key at the end, unless already seen. */
  lemma FirstSeenSnoc<T, K>(s: seq<T>, x: T, keyOf: T -> K)
    ensures FirstSeen(s + [x], keyOf) ==
      if keyOf(x) in FirstSeen(s, keyOf) then FirstSeen(s, keyOf) else FirstSeen(s, keyOf) + [keyOf(x)]
  {
    var after := s + [x];
    assert after[..|after| - 1] == s;
  }

  /** What a sorted sequence leaves after its first `n` elements sorts no
      earlier than any of them. */
  lemma TopOfSorted<T>(s: seq<T>, n: nat, key: T -> Key)
    requires n <= |s| && SortedBy(s, key)
    ensures forall g, i | g in multiset(s) - multiset(s[..n]) && 0 <= i < n :: KeyLe(key(s[i]), key(g))
  {
    PrefixRemainder(s, n);
    forall g, i | g in multiset(s[n..]) && 0 <= i < n ensures KeyLe(key(s[i]), key(g)) {
      var p :| 0 <= p < |s[n..]| && s[n..][p] == g;
      assert s[n + p] == g;
    }
  }

  /** An element of a sorted sequence outside its first `n` elements sorts
      no earlier than any of them. */
  lemma PrefixOutranks<T>(s: seq<T>, n: nat, key: T -> Key, x: T, e: T)
    requires n <= |s| && SortedBy(s, key)
    requires x in multiset(s) && x !in s[..n] && e in s[..n]
    ensures KeyLe(key(e), key(x))
  {
    TopOfSorted(s, n, key);
    assert x !in multiset(s[..n]);
    var i :| 0 <= i < n && s[..n][i] == e;
  }

  /** Cutting a sorted sequence keeps it sorted. */
  lemma SliceSorted<T>(s: seq<T>, limit: int, key: T -> Key)
    requires SortedBy(s, key)
    ensures SortedBy(Slice(s, limit), key)
  {
  }
}
