/** Completeness lists of a validation gate against the report schema that stores them. */
module Completeness {
  import opened Sequences
  import opened Market

  datatype Field = Field(name: string, present: bool)

  datatype Report = Report(required: seq<string>, present: seq<string>, missing: seq<string>, ratio: real)

  function Names(fields: seq<Field>): seq<string> {
    if fields == [] then [] else [fields[0].name] + Names(fields[1..])
  }

  function PresentNames(fields: seq<Field>): seq<string> {
    Names(Filter(fields, (f: Field) => f.present))
  }

  function MissingNames(fields: seq<Field>): seq<string> {
    Names(Filter(fields, (f: Field) => !f.present))
  }

  function Ratio(fields: seq<Field>): real {
    if fields == [] then 1.0
    else |Filter(fields, (f: Field) => f.present)| as real / |fields| as real
  }

  function Lists(fields: seq<Field>): Report {
    Report(Names(fields), PresentNames(fields), MissingNames(fields), Ratio(fields))
  }

  function Distinct(s: seq<string>): set<string> {
    set x | x in s
  }

  // The schema's validator, with its six-digit rounding as a parameter.
  ghost predicate Accepted(r: Report, round: real -> real) {
    var required, present, missing := Distinct(r.required), Distinct(r.present), Distinct(r.missing);
    && present <= required
    && missing <= required
    && present !! missing
    && (required != {} ==> round(r.ratio) == round(|present| as real / |required| as real))
  }

  ghost predicate DistinctNames(fields: seq<Field>) {
    forall i, j :: 0 <= i < j < |fields| ==> fields[i].name != fields[j].name
  }

  lemma {:induction false} NamesMembers(fields: seq<Field>, name: string)
    ensures |Names(fields)| == |fields|
    ensures name in Names(fields) <==> exists f :: f in fields && f.name == name
  {
    if fields != [] {
      NamesMembers(fields[1..], name);
      assert forall f :: f in fields <==> f == fields[0] || f in fields[1..];
    }
  }

  lemma {:induction false} DistinctCount(fields: seq<Field>)
    requires DistinctNames(fields)
    ensures |Distinct(Names(fields))| == |fields|
  {
    if fields == [] {
      assert Distinct(Names(fields)) == {};
    } else {
      DistinctCount(fields[1..]);
      NamesMembers(fields[1..], fields[0].name);
      forall f | f in fields[1..]
        ensures f.name != fields[0].name
      {
        var i :| 0 <= i < |fields[1..]| && fields[1..][i] == f;
        assert fields[i + 1] == f;
      }
      assert Distinct(Names(fields)) == {fields[0].name} + Distinct(Names(fields[1..]));
    }
  }

  lemma {:induction false} FilterDistinct(fields: seq<Field>, p: Field -> bool)
    requires DistinctNames(fields)
    ensures DistinctNames(Filter(fields, p))
  {
    if fields != [] {
      FilterDistinct(fields[1..], p);
      var rest := Filter(fields[1..], p);
      forall j | 0 <= j < |rest|
        ensures rest[j].name != fields[0].name
      {
        assert rest[j] in fields[1..];
        var i :| 0 <= i < |fields[1..]| && fields[1..][i] == rest[j];
        assert fields[i + 1] == rest[j];
      }
    }
  }

  lemma SplitMembers(fields: seq<Field>, name: string)
    ensures name in PresentNames(fields) <==> exists f :: f in fields && f.name == name && f.present
    ensures name in MissingNames(fields) <==> exists f :: f in fields && f.name == name && !f.present
    ensures name in Names(fields) <==> name in PresentNames(fields) || name in MissingNames(fields)
  {
    NamesMembers(fields, name);
    NamesMembers(Filter(fields, (f: Field) => f.present), name);
    NamesMembers(Filter(fields, (f: Field) => !f.present), name);
  }

  lemma {:induction false} NamesInOrder(fields: seq<Field>)
    ensures |Names(fields)| == |fields|
    ensures forall i :: 0 <= i < |fields| ==> Names(fields)[i] == fields[i].name
  {
    if fields != [] {
      NamesInOrder(fields[1..]);
    }
  }

  lemma {:induction false} NamesConcat(a: seq<Field>, b: seq<Field>)
    ensures Names(a + b) == Names(a) + Names(b)
  {
    if a == [] {
      assert a + b == b;
    } else {
      assert (a + b)[1..] == a[1..] + b;
      NamesConcat(a[1..], b);
    }
  }

  lemma EmptyReport()
    ensures Lists([]) == Report([], [], [], 1.0)
  {
  }

  lemma ListsStep(fields: seq<Field>, next: Field)
    ensures PresentNames(fields + [next]) == PresentNames(fields) + (if next.present then [next.name] else [])
    ensures MissingNames(fields + [next]) == MissingNames(fields) + (if next.present then [] else [next.name])
  {
    var kept, dropped := (f: Field) => f.present, (f: Field) => !f.present;
    FilterConcat(fields, [next], kept);
    FilterConcat(fields, [next], dropped);
    FilterOne(next, kept);
    FilterOne(next, dropped);
    NamesConcat(Filter(fields, kept), if next.present then [next] else []);
    NamesConcat(Filter(fields, dropped), if next.present then [] else [next]);
    assert Names([next]) == [next.name] && Names([]) == [];
    hide Names, Filter;
  }

  lemma SomeName(fields: seq<Field>)
    ensures fields == [] <==> Distinct(Names(fields)) == {}
    ensures fields != [] ==> Ratio(fields) == |PresentNames(fields)| as real / |fields| as real
  {
    NamesMembers(Filter(fields, (f: Field) => f.present), "");
    if fields != [] {
      NamesMembers(fields, fields[0].name);
      assert fields[0] in fields;
      assert fields[0].name in Distinct(Names(fields));
    }
  }

  /**
   The lists, field by field: the required names are all names in order; each further field adds
   its name to exactly one of the other two; and the ratio is present entries over all entries.
   */
  lemma ListsExact(fields: seq<Field>, next: Field)
    ensures |Lists(fields).required| == |fields|
    ensures forall i :: 0 <= i < |fields| ==> Lists(fields).required[i] == fields[i].name
    ensures Lists([]) == Report([], [], [], 1.0)
    ensures Lists(fields + [next]).present == Lists(fields).present + (if next.present then [next.name] else [])
    ensures Lists(fields + [next]).missing == Lists(fields).missing + (if next.present then [] else [next.name])
    ensures fields != [] ==> Lists(fields).ratio == |Lists(fields).present| as real / |fields| as real
  {
    NamesInOrder(fields);
    SomeName(fields);
    ListsStep(fields, next);
    hide Names, PresentNames, MissingNames, Ratio, Distinct;
    EmptyReport();
  }

  /** With distinct field names, present and missing partition the required names. */
  lemma ListsPartition(fields: seq<Field>)
    requires DistinctNames(fields)
    ensures Distinct(Names(fields)) == Distinct(PresentNames(fields)) + Distinct(MissingNames(fields))
    ensures Distinct(PresentNames(fields)) !! Distinct(MissingNames(fields))
  {
    hide Names, PresentNames, MissingNames;
    forall name
      ensures name in PresentNames(fields) <==> exists f :: f in fields && f.name == name && f.present
      ensures name in MissingNames(fields) <==> exists f :: f in fields && f.name == name && !f.present
      ensures name in Names(fields) <==> name in PresentNames(fields) || name in MissingNames(fields)
    {
      SplitMembers(fields, name);
    }
    forall f, g | f in fields && g in fields && f.name == g.name
      ensures f == g
    {
      var i :| 0 <= i < |fields| && fields[i] == f;
      var j :| 0 <= j < |fields| && fields[j] == g;
    }
  }

  /** With distinct field names the validator accepts the lists, whatever its rounding: both ratios are the same number. */
  lemma ListsAccepted(fields: seq<Field>, round: real -> real)
    requires DistinctNames(fields)
    ensures Accepted(Lists(fields), round)
  {
    hide Names, MissingNames;
    ListsPartition(fields);
    FilterDistinct(fields, (f: Field) => f.present);
    DistinctCount(fields);
    DistinctCount(Filter(fields, (f: Field) => f.present));
  }

  ghost predicate Conflicting(fields: seq<Field>) {
    exists f, g :: f in fields && g in fields && f.name == g.name && f.present != g.present
  }

  lemma ConflictsShared(fields: seq<Field>)
    ensures Distinct(PresentNames(fields)) <= Distinct(Names(fields))
    ensures Distinct(MissingNames(fields)) <= Distinct(Names(fields))
    ensures Distinct(PresentNames(fields)) !! Distinct(MissingNames(fields)) <==> !Conflicting(fields)
  {
    hide Names, PresentNames, MissingNames;
    var present, missing := Distinct(PresentNames(fields)), Distinct(MissingNames(fields));
    forall name
      ensures name in PresentNames(fields) <==> exists f :: f in fields && f.name == name && f.present
      ensures name in MissingNames(fields) <==> exists f :: f in fields && f.name == name && !f.present
      ensures name in Names(fields) <==> name in PresentNames(fields) || name in MissingNames(fields)
    {
      SplitMembers(fields, name);
    }
    if Conflicting(fields) {
      var f, g :| f in fields && g in fields && f.name == g.name && f.present != g.present;
      assert f.name in present && f.name in missing;
    }
  }

  // Present names among all names.
  function NameRatio(fields: seq<Field>): real
    requires Distinct(Names(fields)) != {}
  {
    |Distinct(PresentNames(fields))| as real / |Distinct(Names(fields))| as real
  }

  /**
   For any fields, repeated names included, and any rounding: the validator accepts the lists
   exactly when no name is listed both ways and present entries among all entries round to the
   same number as present names among all names.
   */
  lemma AcceptedByRounding(fields: seq<Field>, round: real -> real)
    ensures fields != [] ==> Distinct(Names(fields)) != {}
    ensures Accepted(Lists(fields), round)
       <==> !Conflicting(fields) && (fields != [] ==> round(Ratio(fields)) == round(NameRatio(fields)))
  {
    hide Names, PresentNames, MissingNames, Ratio, Distinct, Conflicting;
    ConflictsShared(fields);
    SomeName(fields);
  }

  // Rounding to six digits: no value moves by more than half a unit of the sixth.
  ghost predicate RoundsToSix(round: real -> real) {
    forall x: real :: -0.0000005 <= round(x) - x <= 0.0000005
  }

  lemma ScaledDifference(a: nat, b: nat, c: nat, d: nat)
    requires b > 0 && d > 0
    ensures (a as real / b as real - c as real / d as real) * (b * d) as real == (a * d - c * b) as real
  {
    var x, y, u, v := a as real, b as real, c as real, d as real;
    var p, q := x / y, u / v;
    assert p * y == x && q * v == u;
    assert (p - q) * (y * v) == (p * y) * v - (q * v) * y;
    assert (b * d) as real == y * v && (a * d) as real == x * v && (c * b) as real == u * y;
  }

  lemma CrossMultiply(a: nat, b: nat, c: nat, d: nat)
    requires b > 0 && d > 0
    ensures a as real / b as real == c as real / d as real <==> a * d == c * b
  {
    ScaledDifference(a, b, c, d);
    var gap, scale := a as real / b as real - c as real / d as real, (b * d) as real;
    assert scale > 0.0;
    assert gap != 0.0 ==> gap * scale != 0.0;
  }

  lemma WholeNumber(k: int, x: real)
    requires k != 0 && x == k as real
    ensures Abs(x) >= 1.0
  {
  }

  lemma ScaledBound(x: real, scale: real)
    requires 0.0 < scale < 1_000_000.0 && Abs(x) <= 0.000001
    ensures Abs(x * scale) < 1.0
  {
    assert -0.000001 * scale <= x * scale <= 0.000001 * scale;
  }

  lemma WideGap(gap: real, scale: real)
    requires 0.0 < scale < 1_000_000.0 && Abs(gap * scale) >= 1.0
    ensures Abs(gap) > 0.000001
  {
    if Abs(gap) <= 0.000001 {
      ScaledBound(gap, scale);
    }
  }

  lemma Separation(a: nat, b: nat, c: nat, d: nat)
    requires b > 0 && d > 0 && b * d < 1_000_000 && a * d != c * b
    ensures Abs(a as real / b as real - c as real / d as real) > 0.000001
  {
    hide Abs;
    ScaledDifference(a, b, c, d);
    WholeNumber(a * d - c * b, (a * d - c * b) as real);
    PositiveProduct(b, d);
    WideGap(a as real / b as real - c as real / d as real, (b * d) as real);
  }

  lemma PositiveProduct(b: nat, d: nat)
    requires b > 0 && d > 0
    ensures b * d > 0
  {
  }

  // Different ratios with a small common denominator are too far apart to round alike.
  lemma RatiosApart(a: nat, b: nat, c: nat, d: nat, round: real -> real)
    requires b > 0 && d > 0 && b * d < 1_000_000 && RoundsToSix(round)
    ensures round(a as real / b as real) == round(c as real / d as real) <==> a * d == c * b
  {
    CrossMultiply(a, b, c, d);
    if a * d != c * b {
      Separation(a, b, c, d);
    }
  }

  /**
   While entries times distinct names stay below a million, as they do for up to 999 entries,
   six-digit rounding hides nothing: the lists are accepted exactly when no name is listed both
   ways and present entries stand to all entries as present names stand to all names.
   */
  lemma AcceptedExactly(fields: seq<Field>, round: real -> real)
    requires RoundsToSix(round) && |fields| * |Distinct(Names(fields))| < 1_000_000
    ensures Accepted(Lists(fields), round)
       <==> && !Conflicting(fields)
            && |PresentNames(fields)| * |Distinct(Names(fields))| == |Distinct(PresentNames(fields))| * |fields|
  {
    hide Names, PresentNames, Distinct, Accepted, Conflicting, RoundsToSix;
    AcceptedByRounding(fields, round);
    SomeName(fields);
    if fields != [] {
      RatiosApart(|PresentNames(fields)|, |fields|, |Distinct(PresentNames(fields))|, |Distinct(Names(fields))|, round);
    } else {
      EmptyLists();
    }
  }

  lemma EmptyLists()
    ensures PresentNames([]) == [] && Distinct(PresentNames([])) == {}
  {
  }

  /** A name listed both ways is refused, whatever the rounding. */
  lemma ConflictRefused(fields: seq<Field>, round: real -> real, name: string)
    requires Field(name, true) in fields && Field(name, false) in fields
    ensures !Accepted(Lists(fields), round)
  {
    SplitMembers(fields, name);
    assert name in Distinct(PresentNames(fields)) && name in Distinct(MissingNames(fields));
  }

  // ---------- One name repeated ----------

  lemma SameNames(fields: seq<Field>, again: Field)
    requires again in fields && again.present
    ensures Distinct(Names(fields + [again])) == Distinct(Names(fields))
    ensures Distinct(PresentNames(fields + [again])) == Distinct(PresentNames(fields))
    ensures Conflicting(fields + [again]) <==> Conflicting(fields)
  {
    var longer := fields + [again];
    assert forall f :: f in longer <==> f in fields;
    hide Names, PresentNames, MissingNames;
    forall name
      ensures name in Names(longer) <==> name in Names(fields)
      ensures name in PresentNames(longer) <==> name in PresentNames(fields)
    {
      SplitMembers(longer, name);
      SplitMembers(fields, name);
    }
  }

  lemma PresentCounts(fields: seq<Field>, again: Field)
    requires DistinctNames(fields) && again.present
    ensures |PresentNames(fields + [again])| == |PresentNames(fields)| + 1
    ensures |Distinct(PresentNames(fields))| == |PresentNames(fields)|
  {
    var p := (f: Field) => f.present;
    FilterConcat(fields, [again], p);
    FilterOne(again, p);
    NamesMembers(Filter(fields + [again], p), "");
    NamesMembers(Filter(fields, p), "");
    FilterDistinct(fields, p);
    DistinctCount(Filter(fields, p));
  }

  lemma NoConflict(fields: seq<Field>)
    requires DistinctNames(fields)
    ensures !Conflicting(fields)
  {
    ListsPartition(fields);
    ConflictsShared(fields);
  }

  // Repeating a present entry adds an entry but no name.
  lemma RepeatedCounts(fields: seq<Field>, again: Field)
    requires DistinctNames(fields) && again in fields && again.present
    ensures |PresentNames(fields + [again])| == |PresentNames(fields)| + 1
    ensures |Distinct(Names(fields + [again]))| == |fields|
    ensures |Distinct(PresentNames(fields + [again]))| == |PresentNames(fields)|
    ensures !Conflicting(fields + [again])
  {
    hide *;
    SameNames(fields, again);
    PresentCounts(fields, again);
    DistinctCount(fields);
    NoConflict(fields);
  }

  lemma Spread(k: nat, n: nat)
    ensures (n + 1) * n <= (n + k + 1) * n
  {
    assert (n + k + 1) * n == (n + 1) * n + k * n;
  }

  lemma ProductBound(n: nat)
    requires n <= 999
    ensures (n + 1) * n < 1_000_000
  {
    Spread(999 - n, n);
    assert (999 + 1) * n == 1000 * n;
  }

  lemma OneMore(present: nat, n: nat)
    ensures (present + 1) * n == present * (n + 1) <==> present == n
  {
    assert (present + 1) * n == present * n + n && present * (n + 1) == present * n + present;
  }

  lemma {:induction false} AllPresent(fields: seq<Field>)
    ensures |PresentNames(fields)| <= |fields|
    ensures |PresentNames(fields)| == |fields| <==> !exists f :: f in fields && !f.present
  {
    NamesMembers(Filter(fields, (f: Field) => f.present), "");
    if fields != [] {
      AllPresent(fields[1..]);
      NamesMembers(Filter(fields[1..], (f: Field) => f.present), "");
      assert forall f :: f in fields <==> f == fields[0] || f in fields[1..];
    }
  }

  /**
   A present name repeated once, without any conflict, is refused exactly when some other field
   is missing, for every six-digit rounding and up to 999 names.
   */
  lemma RepeatedNameRefused(fields: seq<Field>, again: Field, round: real -> real)
    requires DistinctNames(fields) && again in fields && again.present
    requires RoundsToSix(round) && |fields| <= 999
    ensures !Conflicting(fields + [again])
    ensures !Accepted(Lists(fields + [again]), round) <==> exists f :: f in fields && !f.present
  {
    hide Names, PresentNames, Distinct, Accepted, Conflicting, DistinctNames, RoundsToSix;
    RepeatedCounts(fields, again);
    var n, present := |fields|, |PresentNames(fields)|;
    ProductBound(n);
    AcceptedExactly(fields + [again], round);
    OneMore(present, n);
    AllPresent(fields);
  }

  // Rounding to the nearest multiple of one millionth.
  function NearestSix(x: real): real {
    (x * 1_000_000.0 + 0.5).Floor as real / 1_000_000.0
  }

  lemma NearestRounds()
    ensures RoundsToSix(NearestSix)
  {
  }

  /**
   Beyond that size rounding can hide the repetition: of 1499 names one is missing, and one of
   the present ones is listed twice. Both ratios round to 0.999333, so the lists are accepted
   although present entries do not stand to all entries as present names to all names.
   */
  lemma LargeListsAccepted(fields: seq<Field>, again: Field)
    requires DistinctNames(fields) && again in fields && again.present
    requires |fields| == 1499 && |PresentNames(fields)| == 1498
    ensures Accepted(Lists(fields + [again]), NearestSix)
    ensures
      var longer := fields + [again];
      |PresentNames(longer)| * |Distinct(Names(longer))| != |Distinct(PresentNames(longer))| * |longer|
  {
    hide Names, PresentNames, Distinct, Accepted, Conflicting, DistinctNames;
    RepeatedCounts(fields, again);
    AcceptedByRounding(fields + [again], NearestSix);
    SomeName(fields + [again]);
    assert NearestSix(1499.0 / 1500.0) == NearestSix(1498.0 / 1499.0) by {
      assert 999333.0 <= 1499.0 / 1500.0 * 1_000_000.0 + 0.5 < 999334.0;
      assert 999333.0 <= 1498.0 / 1499.0 * 1_000_000.0 + 0.5 < 999334.0;
    }
  }
}
