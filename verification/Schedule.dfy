/**
 Orders and positions, without the dictionary of pending fills.

 `p[i]` is the exposure the strategy proposes at bar `i`. `Target` is what the decision
 records, `Position` what is held after bar `i`'s fill phase. The simulator keeps a
 dictionary of scheduled fills instead; `Pending` is the exact content of that dictionary.
 */
module Schedule {
  import opened Wrappers
  import opened Market

  ghost predicate UnitTargets(p: seq<int>) {
    forall i :: 0 <= i < |p| ==> -1 <= p[i] <= 1
  }

  function Position(p: seq<int>, lag: Lag, i: nat): int
    requires i < |p|
    decreases i, 0
  {
    if i < lag then 0
    else if Target(p, lag, i - lag) != Position(p, lag, i - lag) then Target(p, lag, i - lag)
    else Position(p, lag, i - 1)
  }

  function Target(p: seq<int>, lag: Lag, i: nat): int
    requires i < |p|
    decreases i, 1
  {
    if p[i] != Position(p, lag, i) && i + lag >= |p| then Position(p, lag, i) else p[i]
  }

  // Exposure carried into bar k.
  function Units(p: seq<int>, lag: Lag, k: nat): int
    requires k <= |p|
  {
    if k == 0 then 0 else Position(p, lag, k - 1)
  }

  // The decision at bar i schedules a fill.
  predicate Ordered(p: seq<int>, lag: Lag, i: nat)
    requires i < |p|
  {
    Target(p, lag, i) != Position(p, lag, i)
  }

  predicate Filled(p: seq<int>, lag: Lag, i: nat)
    requires i < |p|
  {
    i >= lag && Ordered(p, lag, i - lag)
  }

  // Terminal change that can no longer be executed.
  predicate Skipped(p: seq<int>, lag: Lag, i: nat)
    requires i < |p|
  {
    p[i] != Position(p, lag, i) && i + lag >= |p|
  }

  function Quantity(p: seq<int>, lag: Lag, i: nat): int
    requires i < |p|
  {
    Position(p, lag, i) - Units(p, lag, i)
  }

  // ---------- Bounds ----------

  lemma {:induction false} UnitBounds(p: seq<int>, lag: Lag, i: nat)
    requires UnitTargets(p) && i < |p|
    ensures -1 <= Position(p, lag, i) <= 1
    ensures -1 <= Target(p, lag, i) <= 1
    decreases i
  {
    if i >= lag {
      UnitBounds(p, lag, i - lag);
      UnitBounds(p, lag, i - 1);
    }
  }

  lemma FillBounds(p: seq<int>, lag: Lag, i: nat)
    requires UnitTargets(p) && i < |p|
    ensures -1 <= Position(p, lag, i) <= 1 && -2 <= Quantity(p, lag, i) <= 2
    ensures !Filled(p, lag, i) ==> Quantity(p, lag, i) == 0
    ensures Filled(p, lag, i) ==> Position(p, lag, i) == Target(p, lag, i - lag)
  {
    UnitBounds(p, lag, i);
    if i > 0 {
      UnitBounds(p, lag, i - 1);
    }
  }

  // Without a fill nothing moves, whatever the proposals are.
  lemma NoFillNoMove(p: seq<int>, lag: Lag, i: nat)
    requires i < |p| && !Filled(p, lag, i)
    ensures Quantity(p, lag, i) == 0
  {
  }

  // ---------- Lag one ----------

  /** With the default lag the position simply trails the recorded targets, and every fill trades. */
  lemma LagOne(p: seq<int>, i: nat)
    requires 0 < i < |p|
    ensures Position(p, 1, i) == Target(p, 1, i - 1)
    ensures Filled(p, 1, i) <==> Quantity(p, 1, i) != 0
  {
  }

  // ---------- Longer lags ----------

  /** The latest decision in [low, high) that scheduled a fill. */
  function LastOrder(p: seq<int>, lag: Lag, low: nat, high: nat): (r: Option<nat>)
    requires low <= high <= |p|
    ensures r.None? ==> forall j: nat :: low <= j < high ==> !Ordered(p, lag, j)
    ensures r.Some? ==> low <= r.value < high && Ordered(p, lag, r.value)
    ensures r.Some? ==> forall j: nat :: r.value < j < high ==> !Ordered(p, lag, j)
    decreases high - low
  {
    if low == high then None
    else if Ordered(p, lag, high - 1) then Some(high - 1)
    else LastOrder(p, lag, low, high - 1)
  }

  // The latest order still in flight when bar i decides: placed before bar i, due after it.
  function InFlight(p: seq<int>, lag: Lag, i: nat): Option<nat>
    requires i < |p|
  {
    LastOrder(p, lag, if i + 1 < lag then 0 else i + 1 - lag, i)
  }

  /** What the decision at bar i is heading for: the target of the latest order in flight, else the position held. */
  function Heading(p: seq<int>, lag: Lag, i: nat): int
    requires i < |p|
  {
    if InFlight(p, lag, i).Some? then Target(p, lag, InFlight(p, lag, i).value) else Position(p, lag, i)
  }

  // Until bar i's own order is due, only the orders placed before it move the position.
  lemma {:induction false} HeldUntilDue(p: seq<int>, lag: Lag, i: nat, m: nat)
    requires i <= m < i + lag && m < |p|
    ensures
      var low := if i + 1 < lag then 0 else i + 1 - lag;
      var high := if m + 1 < lag then 0 else m + 1 - lag;
      && low <= high <= i
      && var last := LastOrder(p, lag, low, high);
         Position(p, lag, m) == if last.Some? then Target(p, lag, last.value) else Position(p, lag, i)
    decreases m
  {
    if m > i {
      HeldUntilDue(p, lag, i, m - 1);
    }
  }

  /** On the bar before the decision of bar i would fill, the position is what bar i was heading for. */
  lemma HeadingReached(p: seq<int>, lag: Lag, i: nat)
    requires i + lag < |p|
    ensures Units(p, lag, i + lag) == Heading(p, lag, i)
  {
    HeldUntilDue(p, lag, i, i + lag - 1);
  }

  /**
   A recorded target is reached `lag` bars later exactly when its decision scheduled a fill, or
   no order was in flight, or the latest order in flight had the same target. A decision that
   already holds its target does not cancel an order placed before it.
   */
  lemma TargetReached(p: seq<int>, lag: Lag, i: nat)
    requires i + lag < |p|
    ensures
      var last := InFlight(p, lag, i);
      Position(p, lag, i + lag) == Target(p, lag, i)
      <==> Ordered(p, lag, i) || last.None? || Target(p, lag, last.value) == Target(p, lag, i)
  {
    HeadingReached(p, lag, i);
  }

  /** The fill of an order moves nothing exactly when the latest order in flight at its decision had the same target. */
  lemma IdleFill(p: seq<int>, lag: Lag, i: nat)
    requires i + lag < |p| && Ordered(p, lag, i)
    ensures
      var last := InFlight(p, lag, i);
      Quantity(p, lag, i + lag) == 0 <==> last.Some? && Target(p, lag, last.value) == Target(p, lag, i)
  {
    HeadingReached(p, lag, i);
  }

  // ---------- The pending dictionary ----------

  // Keys are fill bars, values the decisions that scheduled them, before bar k is processed.
  function Pending(p: seq<int>, lag: Lag, k: nat): map<nat, nat>
    requires k <= |p|
  {
    map j: nat | k <= j < k + lag && j < |p| && Filled(p, lag, j) :: j - lag
  }

  ghost predicate KeysWithin(m: map<nat, nat>, low: int, high: int) {
    forall j :: j in m ==> low <= j < high
  }

  lemma PendingInitially(p: seq<int>, lag: Lag)
    ensures Pending(p, lag, 0) == map[]
  {
  }

  /** Nothing is left unfilled when the bars run out. */
  lemma PendingFinally(p: seq<int>, lag: Lag)
    ensures Pending(p, lag, |p|) == map[]
  {
  }

  // What the dictionary holds, key by key.
  lemma PendingAt(p: seq<int>, lag: Lag, k: nat, j: nat)
    requires k <= |p|
    ensures j in Pending(p, lag, k) <==> k <= j < k + lag && j < |p| && Filled(p, lag, j)
    ensures j in Pending(p, lag, k) ==> lag <= j && Pending(p, lag, k)[j] == j - lag
  {
    hide Ordered;
  }

  lemma KeysBound(m: map<nat, nat>, low: int, high: int)
    requires forall j: nat :: j in m ==> low <= j < high
    ensures KeysWithin(m, low, high)
  {
  }

  // An order always has a bar to fill at, and that bar's fill is the order's.
  lemma OrderFits(p: seq<int>, lag: Lag, k: nat)
    requires k < |p|
    ensures Ordered(p, lag, k) ==> k + lag < |p|
    ensures k + lag < |p| ==> (Filled(p, lag, k + lag) <==> Ordered(p, lag, k))
    ensures Filled(p, lag, k) ==> lag <= k
  {
  }

  /**
   One bar consumes at most its own key and adds at most the key `lag` bars ahead, which was
   free; the keys left lie in the next `lag` bars and inside the window.
   */
  lemma PendingStep(p: seq<int>, lag: Lag, k: nat)
    requires k < |p|
    ensures k in Pending(p, lag, k) <==> Filled(p, lag, k)
    ensures Filled(p, lag, k) ==> Pending(p, lag, k)[k] == k - lag
    ensures k + lag !in Pending(p, lag, k)
    ensures Ordered(p, lag, k) ==> k + lag < |p|
    ensures Pending(p, lag, k + 1).Keys == Pending(p, lag, k).Keys - {k} + (if Ordered(p, lag, k) then {k + lag} else {})
    ensures Pending(p, lag, k + 1)
         == Pending(p, lag, k) - {k} + (if Ordered(p, lag, k) then map[k + lag := k] else map[])
    ensures KeysWithin(Pending(p, lag, k + 1), k + 1, k + 1 + lag)
    ensures KeysWithin(Pending(p, lag, k + 1), 0, |p|)
  {
    hide *;
    OrderFits(p, lag, k);
    var before, after := Pending(p, lag, k), Pending(p, lag, k + 1);
    var next := before - {k} + (if Ordered(p, lag, k) then map[k + lag := k] else map[]);
    forall j: nat
      ensures j in after <==> j in next
      ensures j in after ==> after[j] == next[j]
      ensures j in after ==> k + 1 <= j < k + 1 + lag && j < |p|
    {
      PendingAt(p, lag, k, j);
      PendingAt(p, lag, k + 1, j);
    }
    PendingAt(p, lag, k, k);
    PendingAt(p, lag, k, k + lag);
    assert after == next;
    assert after.Keys == before.Keys - {k} + (if Ordered(p, lag, k) then {k + lag} else {});
    KeysBound(after, k + 1, k + 1 + lag);
    KeysBound(after, 0, |p|);
  }

  // ---------- Orders and fills correspond one to one ----------

  ghost function Orders(p: seq<int>, lag: Lag, k: nat): set<nat>
    requires k <= |p|
  {
    set i: nat | i < k && Ordered(p, lag, i)
  }

  ghost function Fills(p: seq<int>, lag: Lag, k: nat): set<nat>
    requires k <= |p|
  {
    set i: nat | i < k && Filled(p, lag, i)
  }

  function FillCount(p: seq<int>, lag: Lag, k: nat): nat
    requires k <= |p|
  {
    if k == 0 then 0
    else FillCount(p, lag, k - 1) + if Filled(p, lag, k - 1) then 1 else 0
  }

  lemma {:induction false} FillCountIsCardinality(p: seq<int>, lag: Lag, k: nat)
    requires k <= |p|
    ensures FillCount(p, lag, k) == |Fills(p, lag, k)|
  {
    if k == 0 {
      assert Fills(p, lag, 0) == {};
    } else {
      FillCountIsCardinality(p, lag, k - 1);
      var last: set<nat> := if Filled(p, lag, k - 1) then {k - 1} else {};
      assert Fills(p, lag, k) == Fills(p, lag, k - 1) + last;
    }
  }

  /**
   Shifting by `lag` is a bijection between the decisions that recorded a new target and the
   fills, and each fill lands on the target its decision recorded.
   */
  lemma FillsMatchOrders(p: seq<int>, lag: Lag)
    ensures Fills(p, lag, |p|) == set i | i in Orders(p, lag, |p|) :: i + lag
    ensures forall i :: i in Orders(p, lag, |p|) ==>
              i + lag < |p| && Position(p, lag, i + lag) == Target(p, lag, i)
    ensures FillCount(p, lag, |p|) == |Orders(p, lag, |p|)|
  {
    var orders := Orders(p, lag, |p|);
    var shifted := set i | i in orders :: i + lag;
    forall j: nat | j in Fills(p, lag, |p|)
      ensures j in shifted
    {
      assert j - lag in orders;
    }
    assert Fills(p, lag, |p|) == shifted;
    FillCountIsCardinality(p, lag, |p|);
    ShiftKeepsSize(orders, lag);
  }

  lemma {:induction false} ShiftKeepsSize(s: set<nat>, d: nat)
    ensures |set i | i in s :: i + d| == |s|
    decreases s
  {
    var shifted := set i | i in s :: i + d;
    if s == {} {
      assert shifted == {};
    } else {
      var x :| x in s;
      ShiftKeepsSize(s - {x}, d);
      var rest := set i | i in s - {x} :: i + d;
      forall y | y in shifted
        ensures y in rest + {x + d}
      {
        var i :| i in s && y == i + d;
        assert i == x || i in s - {x};
      }
      assert x + d in shifted;
      assert shifted == rest + {x + d};
      assert x + d !in rest;
    }
  }

  // ---------- Two runs ----------

  /** Positions and recorded targets through bar k depend on the proposals through bar k. */
  lemma {:induction false} ScheduleCausal(p: seq<int>, p': seq<int>, lag: Lag, k: nat, i: nat)
    requires |p| == |p'| && i <= k < |p|
    requires forall j :: 0 <= j <= k ==> p[j] == p'[j]
    ensures Position(p, lag, i) == Position(p', lag, i)
    ensures Target(p, lag, i) == Target(p', lag, i)
    decreases i
  {
    if i >= lag {
      ScheduleCausal(p, p', lag, k, i - lag);
      ScheduleCausal(p, p', lag, k, i - 1);
    }
  }

  /**
   Cutting the window short never changes a position. It changes a recorded target exactly
   for a move that the longer window could still execute and the shorter one cannot.
   */
  lemma {:induction false} ScheduleTruncated(short: seq<int>, long: seq<int>, lag: Lag, i: nat)
    requires short <= long && i < |short|
    ensures Position(short, lag, i) == Position(long, lag, i)
    ensures Target(short, lag, i) != Target(long, lag, i)
       <==> Skipped(short, lag, i) && !Skipped(long, lag, i)
    decreases i
  {
    if i >= lag {
      ScheduleTruncated(short, long, lag, i - lag);
      ScheduleTruncated(short, long, lag, i - 1);
    }
  }

  // ---------- Constant proposals ----------

  ghost predicate Constant(p: seq<int>, c: int) {
    forall i :: 0 <= i < |p| ==> p[i] == c
  }

  /** A constant proposal is reached at bar `lag`, reordered until then, and held from there on. */
  lemma {:induction false} ConstantSchedule(p: seq<int>, lag: Lag, c: int, i: nat)
    requires Constant(p, c) && i < |p|
    ensures Position(p, lag, i) == if i < lag then 0 else c
    ensures Filled(p, lag, i) <==> c != 0 && lag <= i < 2 * lag
    decreases i
  {
    if i >= lag {
      ConstantSchedule(p, lag, c, i - lag);
      ConstantSchedule(p, lag, c, i - 1);
    }
  }

  lemma {:induction false} ConstantFillCount(p: seq<int>, lag: Lag, c: int, k: nat)
    requires Constant(p, c) && k <= |p|
    ensures FillCount(p, lag, k) == if c == 0 || k <= lag then 0 else if k < 2 * lag then k - lag else lag
  {
    if k > 0 {
      ConstantFillCount(p, lag, c, k - 1);
      ConstantSchedule(p, lag, c, k - 1);
    }
  }
}
