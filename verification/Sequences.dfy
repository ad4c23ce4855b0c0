/**
 List operations the engine borrows from its host language: comprehension with a
 condition, order-preserving removal of duplicates, `append if absent`, and the stable
 sort behind `sorted(..., key=...)`.
 */
module Sequences {

  // ---------- Filtering ----------

  function Filter<T(!new)>(s: seq<T>, p: T -> bool): (r: seq<T>)
    ensures forall x :: x in r <==> x in s && p(x)
    ensures |r| <= |s|
  {
    if s == [] then []
    else if p(s[0]) then [s[0]] + Filter(s[1..], p)
    else Filter(s[1..], p)
  }

  lemma {:induction false} FilterConcat<T(!new)>(a: seq<T>, b: seq<T>, p: T -> bool)
    ensures Filter(a + b, p) == Filter(a, p) + Filter(b, p)
  {
    if a == [] {
      assert a + b == b;
    } else {
      assert (a + b)[1..] == a[1..] + b;
      FilterConcat(a[1..], b, p);
    }
  }

  // Two lists of the same length whose entries agree wherever either is kept.
  lemma {:induction false} FilterPointwise<T(!new)>(a: seq<T>, b: seq<T>, p: T -> bool)
    requires |a| == |b|
    requires forall i :: 0 <= i < |a| && (p(a[i]) || p(b[i])) ==> a[i] == b[i]
    ensures Filter(a, p) == Filter(b, p)
  {
    if a != [] {
      FilterPointwise(a[1..], b[1..], p);
    }
  }

  lemma {:induction false} FilterSame<T(!new)>(s: seq<T>, p: T -> bool, q: T -> bool)
    requires forall x :: x in s ==> p(x) == q(x)
    ensures Filter(s, p) == Filter(s, q)
  {
    if s != [] {
      FilterSame(s[1..], p, q);
    }
  }

  // Filtering by a weaker condition first changes nothing.
  lemma {:induction false} FilterThrough<T(!new)>(s: seq<T>, weak: T -> bool, strong: T -> bool)
    requires forall x :: x in s && strong(x) ==> weak(x)
    ensures Filter(Filter(s, weak), strong) == Filter(s, strong)
  {
    if s != [] {
      FilterThrough(s[1..], weak, strong);
    }
  }

  lemma {:induction false} FilterNone<T(!new)>(s: seq<T>, p: T -> bool)
    requires forall x :: x in s ==> !p(x)
    ensures Filter(s, p) == []
  {
    if s != [] {
      FilterNone(s[1..], p);
    }
  }

  lemma {:induction false} FilterAll<T(!new)>(s: seq<T>, p: T -> bool)
    requires forall x :: x in s ==> p(x)
    ensures Filter(s, p) == s
  {
    if s != [] {
      FilterAll(s[1..], p);
    }
  }

  lemma {:induction false} FilterCommutes<T(!new)>(s: seq<T>, p: T -> bool, q: T -> bool)
    ensures Filter(Filter(s, p), q) == Filter(Filter(s, q), p)
  {
    if s != [] {
      FilterCommutes(s[1..], p, q);
    }
  }

  lemma FilterOne<T(!new)>(x: T, p: T -> bool)
    ensures Filter([x], p) == if p(x) then [x] else []
  {
    assert [x][1..] == [];
  }

  // ---------- Duplicates ----------

  ghost predicate NoDuplicates<T(!new)>(s: seq<T>) {
    forall i, j :: 0 <= i < j < |s| ==> s[i] != s[j]
  }

  function AppendUnique<T(==)>(s: seq<T>, x: T): (r: seq<T>)
    ensures x in r
  {
    if x in s then s else s + [x]
  }

  function AppendAllUnique<T(==)>(s: seq<T>, xs: seq<T>): (r: seq<T>)
    decreases |xs|
  {
    if xs == [] then s else AppendAllUnique(AppendUnique(s, xs[0]), xs[1..])
  }

  lemma {:induction false} AppendAllUniqueConcat<T(!new)>(s: seq<T>, xs: seq<T>, ys: seq<T>)
    ensures AppendAllUnique(s, xs + ys) == AppendAllUnique(AppendAllUnique(s, xs), ys)
    decreases |xs|
  {
    if xs == [] {
      assert xs + ys == ys;
    } else {
      assert (xs + ys)[1..] == xs[1..] + ys;
      AppendAllUniqueConcat(AppendUnique(s, xs[0]), xs[1..], ys);
    }
  }

  // Nothing is lost, nothing is invented, nothing is reordered and nothing is repeated.
  lemma {:induction false} AppendAllUniqueContents<T(!new)>(s: seq<T>, xs: seq<T>)
    ensures s <= AppendAllUnique(s, xs)
    ensures forall x :: x in AppendAllUnique(s, xs) <==> x in s || x in xs
    ensures NoDuplicates(s) ==> NoDuplicates(AppendAllUnique(s, xs))
    decreases |xs|
  {
    if xs != [] {
      AppendAllUniqueContents(AppendUnique(s, xs[0]), xs[1..]);
    }
  }

  lemma {:induction false} FilterAppendAllUnique<T(!new)>(s: seq<T>, xs: seq<T>, p: T -> bool)
    ensures Filter(AppendAllUnique(s, xs), p) == AppendAllUnique(Filter(s, p), Filter(xs, p))
    decreases |xs|
  {
    if xs != [] {
      var x, rest := xs[0], xs[1..];
      FilterConcat(s, [x], p);
      FilterOne(x, p);
      FilterAppendAllUnique(AppendUnique(s, x), rest, p);
      if p(x) {
        assert Filter(AppendUnique(s, x), p) == AppendUnique(Filter(s, p), x);
        assert ([x] + Filter(rest, p))[1..] == Filter(rest, p);
      } else {
        assert Filter(s, p) + [] == Filter(s, p);
      }
    }
  }

  function Dedup<T(==)>(s: seq<T>): (r: seq<T>)
  {
    AppendAllUnique([], s)
  }

  // ---------- Stable sorting ----------

  ghost predicate TotalPreorder<T(!new)>(leq: (T, T) -> bool) {
    && (forall x, y :: leq(x, y) || leq(y, x))
    && (forall x, y, z :: leq(x, y) && leq(y, z) ==> leq(x, z))
  }

  ghost predicate Sorted<T>(s: seq<T>, leq: (T, T) -> bool) {
    forall i, j :: 0 <= i < j < |s| ==> leq(s[i], s[j])
  }

  function Insert<T>(x: T, s: seq<T>, leq: (T, T) -> bool): (r: seq<T>)
    ensures multiset(r) == multiset(s) + multiset{x}
  {
    if s == [] then [x]
    else if leq(x, s[0]) then [x] + s
    else
      assert s == [s[0]] + s[1..];
      [s[0]] + Insert(x, s[1..], leq)
  }

  function Sort<T>(s: seq<T>, leq: (T, T) -> bool): (r: seq<T>)
    ensures multiset(r) == multiset(s)
  {
    if s == [] then []
    else
      assert s == [s[0]] + s[1..];
      Insert(s[0], Sort(s[1..], leq), leq)
  }

  lemma MembersOf<T(!new)>(a: seq<T>, b: seq<T>)
    requires multiset(a) == multiset(b)
    ensures |a| == |b|
    ensures forall x :: x in a <==> x in b
  {
    assert |multiset(a)| == |multiset(b)|;
    forall x
      ensures x in a <==> x in b
    {
      assert x in a <==> x in multiset(a);
      assert x in b <==> x in multiset(b);
    }
  }

  lemma {:induction false} InsertSorted<T(!new)>(x: T, s: seq<T>, leq: (T, T) -> bool)
    requires TotalPreorder(leq) && Sorted(s, leq)
    ensures Sorted(Insert(x, s, leq), leq)
  {
    if s != [] && !leq(x, s[0]) {
      InsertSorted(x, s[1..], leq);
      var tail := Insert(x, s[1..], leq);
      assert multiset(tail) == multiset(s[1..] + [x]);
      MembersOf(tail, s[1..] + [x]);
      forall j | 0 <= j < |tail|
        ensures leq(s[0], tail[j])
      {
        assert tail[j] in s[1..] + [x];
      }
    }
  }

  lemma {:induction false} SortSorted<T(!new)>(s: seq<T>, leq: (T, T) -> bool)
    requires TotalPreorder(leq)
    ensures Sorted(Sort(s, leq), leq)
    ensures |Sort(s, leq)| == |s|
    ensures forall x :: x in Sort(s, leq) <==> x in s
  {
    if s != [] {
      SortSorted(s[1..], leq);
      InsertSorted(s[0], Sort(s[1..], leq), leq);
    }
    MembersOf(Sort(s, leq), s);
  }

  // Stability: elements of one tie class keep their original order.
  lemma {:induction false} SortStable<T(!new)>(s: seq<T>, leq: (T, T) -> bool, tie: T -> bool)
    requires forall x, y :: tie(x) && tie(y) ==> leq(x, y)
    ensures Filter(Sort(s, leq), tie) == Filter(s, tie)
  {
    if s != [] {
      SortStable(s[1..], leq, tie);
      InsertStable(s[0], Sort(s[1..], leq), leq, tie);
    }
  }

  lemma {:induction false} InsertStable<T(!new)>(x: T, s: seq<T>, leq: (T, T) -> bool, tie: T -> bool)
    requires forall y :: tie(x) && tie(y) ==> leq(x, y)
    ensures Filter(Insert(x, s, leq), tie) == (if tie(x) then [x] else []) + Filter(s, tie)
  {
    hide Filter;
    FilterOne(x, tie);
    if s == [] || leq(x, s[0]) {
      FilterConcat([x], s, tie);
      assert s == [] ==> [x] + s == [x];
    } else {
      InsertStable(x, s[1..], leq, tie);
      InsertBehind(x, s, Insert(x, s[1..], leq), tie);
    }
  }

  // An element that does not tie with the head may move behind it.
  lemma InsertBehind<T(!new)>(x: T, s: seq<T>, rest: seq<T>, tie: T -> bool)
    requires s != [] && !(tie(x) && tie(s[0]))
    requires Filter(rest, tie) == (if tie(x) then [x] else []) + Filter(s[1..], tie)
    ensures Filter([s[0]] + rest, tie) == (if tie(x) then [x] else []) + Filter(s, tie)
  {
    hide Filter;
    FilterOne(s[0], tie);
    FilterConcat([s[0]], rest, tie);
    FilterConcat([s[0]], s[1..], tie);
    assert [s[0]] + s[1..] == s;
  }

  // A list already in order is left alone.
  lemma {:induction false} SortIdentity<T(!new)>(s: seq<T>, leq: (T, T) -> bool)
    requires Sorted(s, leq)
    ensures Sort(s, leq) == s
  {
    if s != [] {
      SortIdentity(s[1..], leq);
      if |s| > 1 {
        assert leq(s[0], s[1]);
      }
    }
  }

  lemma {:induction false} FilterSorted<T(!new)>(s: seq<T>, p: T -> bool, leq: (T, T) -> bool)
    requires Sorted(s, leq)
    ensures Sorted(Filter(s, p), leq)
  {
    if s != [] {
      FilterSorted(s[1..], p, leq);
      var rest := Filter(s[1..], p);
      forall j | 0 <= j < |rest|
        ensures leq(s[0], rest[j])
      {
        assert rest[j] in s[1..];
        var k :| 0 <= k < |s[1..]| && s[1..][k] == rest[j];
        assert s[k + 1] == rest[j];
      }
    }
  }

  // With no ties between different elements, the sorted list depends on the contents alone.
  lemma {:induction false} SortedUnique<T(!new)>(a: seq<T>, b: seq<T>, leq: (T, T) -> bool)
    requires Sorted(a, leq) && Sorted(b, leq)
    requires multiset(a) == multiset(b)
    requires forall x, y :: x in a && y in a && leq(x, y) && leq(y, x) ==> x == y
    ensures a == b
  {
    MembersOf(a, b);
    if a != [] {
      SortedHeads(a, b, leq);
      TailsMatch(a, b);
      SortedUnique(a[1..], b[1..], leq);
      assert a == [a[0]] + a[1..] && b == [b[0]] + b[1..];
    }
  }

  lemma TailsMatch<T(!new)>(a: seq<T>, b: seq<T>)
    requires a != [] && b != [] && a[0] == b[0] && multiset(a) == multiset(b)
    ensures multiset(a[1..]) == multiset(b[1..])
    ensures forall x :: x in a[1..] ==> x in a
  {
    assert a == [a[0]] + a[1..] && b == [b[0]] + b[1..];
    assert multiset(a[1..]) == multiset(a) - multiset{a[0]};
    assert multiset(b[1..]) == multiset(b) - multiset{b[0]};
  }

  lemma SortedHeads<T(!new)>(a: seq<T>, b: seq<T>, leq: (T, T) -> bool)
    requires Sorted(a, leq) && Sorted(b, leq)
    requires a != [] && b != [] && a[0] in b && b[0] in a
    requires leq(a[0], b[0]) && leq(b[0], a[0]) ==> a[0] == b[0]
    ensures a[0] == b[0]
  {
    var i :| 0 <= i < |b| && b[i] == a[0];
    var j :| 0 <= j < |a| && a[j] == b[0];
    if i != 0 && j != 0 {
      assert leq(b[0], b[i]) && leq(a[0], a[j]);
    }
  }

  lemma NoDuplicatesStep<T(!new)>(s: seq<T>)
    requires s != []
    ensures NoDuplicates(s) <==> s[0] !in s[1..] && NoDuplicates(s[1..])
  {
    var rest := s[1..];
    assert forall i :: 0 <= i < |rest| ==> rest[i] == s[i + 1];
    if NoDuplicates(rest) && s[0] !in rest {
      forall i, j | 0 <= i < j < |s|
        ensures s[i] != s[j]
      {
        assert s[j] == rest[j - 1] && (i > 0 ==> s[i] == rest[i - 1]);
      }
    }
  }

  lemma {:induction false} DistinctCounts<T(!new)>(s: seq<T>)
    ensures NoDuplicates(s) <==> forall x :: x in s ==> multiset(s)[x] == 1
  {
    if s != [] {
      var rest := s[1..];
      NoDuplicatesStep(s);
      DistinctCounts(rest);
      hide NoDuplicates;
      assert s == [s[0]] + rest;
      assert multiset(s) == multiset{s[0]} + multiset(rest);
      assert forall x :: x in s <==> x == s[0] || x in rest;
      assert forall x :: x in rest <==> multiset(rest)[x] > 0;
    }
  }

  lemma SortKeepsDistinct<T(!new)>(s: seq<T>, leq: (T, T) -> bool)
    requires NoDuplicates(s)
    ensures NoDuplicates(Sort(s, leq))
  {
    DistinctCounts(s);
    DistinctCounts(Sort(s, leq));
    MembersOf(Sort(s, leq), s);
    hide NoDuplicates;
  }

  // ---------- Lexicographic order on identifiers ----------

  predicate TextLeq(a: string, b: string) {
    if a == [] then true
    else if b == [] then false
    else a[0] < b[0] || (a[0] == b[0] && TextLeq(a[1..], b[1..]))
  }

  lemma {:induction false} TextLeqTotal(a: string, b: string)
    ensures TextLeq(a, b) || TextLeq(b, a)
    ensures TextLeq(a, b) && TextLeq(b, a) ==> a == b
  {
    if a != [] && b != [] {
      TextLeqTotal(a[1..], b[1..]);
    }
  }

  lemma {:induction false} TextLeqTransitive(a: string, b: string, c: string)
    requires TextLeq(a, b) && TextLeq(b, c)
    ensures TextLeq(a, c)
  {
    if a != [] && a[0] == b[0] == c[0] {
      TextLeqTransitive(a[1..], b[1..], c[1..]);
    }
  }

  lemma TextLeqIsPreorder()
    ensures TotalPreorder(TextLeq)
  {
    forall a: string, b: string
      ensures TextLeq(a, b) || TextLeq(b, a)
    {
      TextLeqTotal(a, b);
    }
    forall a: string, b: string, c: string | TextLeq(a, b) && TextLeq(b, c)
      ensures TextLeq(a, c)
    {
      TextLeqTransitive(a, b, c);
    }
  }

  /** Code-point order, as string comparison defines it: a prefix comes first, else the first difference decides. */
  ghost predicate CodePointLeq(a: string, b: string) {
    a <= b || exists k: nat :: k < |a| && k < |b| && a[..k] == b[..k] && a[k] < b[k]
  }

  // Positions shift by one behind an equal first character.
  lemma DifferenceShifts(a: string, b: string, k: nat)
    requires a != [] && b != [] && a[0] == b[0] && k < |a| && k < |b|
    ensures a[..k] == b[..k] <==> k == 0 || a[1..][..k - 1] == b[1..][..k - 1]
  {
    if k > 0 {
      assert a[..k] == [a[0]] + a[1..][..k - 1] && b[..k] == [b[0]] + b[1..][..k - 1];
      assert a[..k][1..] == a[1..][..k - 1] && b[..k][1..] == b[1..][..k - 1];
    }
  }

  lemma PrefixShifts(a: string, b: string)
    requires a != [] && b != [] && a[0] == b[0]
    ensures a <= b <==> a[1..] <= b[1..]
  {
    assert a == [a[0]] + a[1..] && b == [b[0]] + b[1..];
  }

  ghost predicate FirstDifference(a: string, b: string, k: nat) {
    k < |a| && k < |b| && a[..k] == b[..k] && a[k] < b[k]
  }

  lemma FirstDifferenceShifts(a: string, b: string, k: nat)
    requires a != [] && b != [] && a[0] == b[0]
    ensures !FirstDifference(a, b, 0)
    ensures FirstDifference(a, b, k + 1) <==> FirstDifference(a[1..], b[1..], k)
  {
    if k + 1 < |a| && k + 1 < |b| {
      DifferenceShifts(a, b, k + 1);
    }
  }

  lemma OrderMeans(a: string, b: string)
    ensures CodePointLeq(a, b) <==> a <= b || exists k: nat :: FirstDifference(a, b, k)
  {
    if k: nat :| k < |a| && k < |b| && a[..k] == b[..k] && a[k] < b[k] {
      assert FirstDifference(a, b, k);
    }
  }

  lemma OrderShifts(a: string, b: string)
    requires a != [] && b != [] && a[0] == b[0]
    ensures CodePointLeq(a, b) <==> CodePointLeq(a[1..], b[1..])
  {
    hide *;
    PrefixShifts(a, b);
    OrderMeans(a, b);
    OrderMeans(a[1..], b[1..]);
    if k: nat :| FirstDifference(a, b, k) {
      FirstDifferenceShifts(a, b, if k > 0 then k - 1 else 0);
      assert k > 0 && FirstDifference(a[1..], b[1..], k - 1);
    }
    if k: nat :| FirstDifference(a[1..], b[1..], k) {
      FirstDifferenceShifts(a, b, k);
      assert FirstDifference(a, b, k + 1);
    }
  }

  lemma OrderAtOnce(a: string, b: string)
    requires a != [] && b != [] && a[0] != b[0]
    ensures CodePointLeq(a, b) <==> a[0] < b[0]
  {
    assert a[..0] == b[..0];
    forall k: nat | 0 < k <= |a| && k <= |b|
      ensures a[..k] != b[..k]
    {
      assert a[..k][0] == a[0] && b[..k][0] == b[0];
    }
  }

  lemma {:induction false} TextLeqExact(a: string, b: string)
    ensures TextLeq(a, b) <==> CodePointLeq(a, b)
  {
    if a == [] || b == [] {
    } else if a[0] == b[0] {
      OrderShifts(a, b);
      TextLeqExact(a[1..], b[1..]);
      hide CodePointLeq;
    } else {
      OrderAtOnce(a, b);
      hide CodePointLeq;
    }
  }
}
