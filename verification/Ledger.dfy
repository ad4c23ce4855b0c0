/**
 Cash, costs and profit along one run, as prefix sums over the bars, and the conservation
 laws that tie the reported figures to prices, positions and turnover.
 */
module Ledger {
  import opened Market
  import opened Schedule

  /** What a position is worth at a price. */
  function Worth(units: int, price: real): real {
    units as real * price
  }

  /** What trading `notional` costs at a rate in basis points. */
  function Charge(notional: real, bps: real): real {
    Abs(notional) * (bps / 10_000.0)
  }

  /** A price path with the exposures proposed along it and the terms of execution. */
  datatype Tape = Tape(
    bars: seq<Bar>,
    proposals: seq<int>,
    lag: Lag,
    transactionBps: real,
    slippageBps: real,
    startingCash: real)
  {
    ghost predicate Valid() {
      |bars| == |proposals| >= 1
    }

    function Rate(): real {
      RateOf(transactionBps, slippageBps)
    }

    function Held(k: nat): int
      requires Valid() && k <= |bars|
    {
      Units(proposals, lag, k)
    }

    function FilledAt(i: nat): bool
      requires Valid() && i < |bars|
    {
      Filled(proposals, lag, i)
    }

    function FillQuantity(i: nat): int
      requires Valid() && i < |bars|
    {
      Quantity(proposals, lag, i)
    }

    function Notional(i: nat): real
      requires Valid() && i < |bars|
    {
      Worth(FillQuantity(i), bars[i].open)
    }

    function TransactionCost(i: nat): real
      requires Valid() && i < |bars|
    {
      Charge(Notional(i), transactionBps)
    }

    function Slippage(i: nat): real
      requires Valid() && i < |bars|
    {
      Charge(Notional(i), slippageBps)
    }

    function CashDelta(i: nat): real
      requires Valid() && i < |bars|
    {
      -(Notional(i) + TransactionCost(i) + Slippage(i))
    }

    // After k bars:

    function Cash(k: nat): real
      requires Valid() && k <= |bars|
    {
      if k == 0 then startingCash
      else Cash(k - 1) + (if FilledAt(k - 1) then CashDelta(k - 1) else 0.0)
    }

    function Costs(k: nat): real
      requires Valid() && k <= |bars|
    {
      if k == 0 then 0.0
      else Costs(k - 1) + (if FilledAt(k - 1) then TransactionCost(k - 1) + Slippage(k - 1) else 0.0)
    }

    function Turnover(k: nat): real
      requires Valid() && k <= |bars|
    {
      if k == 0 then 0.0
      else Turnover(k - 1) + (if FilledAt(k - 1) then Abs(Notional(k - 1)) else 0.0)
    }

    function Trades(k: nat): nat
      requires Valid() && k <= |bars|
    {
      FillCount(proposals, lag, k)
    }

    // At the end of the run:

    function LastClose(): real
      requires Valid()
    {
      bars[|bars| - 1].close
    }

    function EndingValue(): real
      requires Valid()
    {
      Cash(|bars|) + Worth(Held(|bars|), LastClose())
    }

    function GrossPnl(): real
      requires Valid()
    {
      EndingValue() + Costs(|bars|) - startingCash
    }

    function NetPnl(): real
      requires Valid()
    {
      EndingValue() - startingCash
    }
  }

  // ---------- Costs are turnover at the quoted rate ----------

  lemma SplitRate(x: real, a: real, b: real)
    ensures x * (a / 10_000.0) + x * (b / 10_000.0) == x * ((a + b) / 10_000.0)
  {
    assert a / 10_000.0 + b / 10_000.0 == (a + b) / 10_000.0;
    var u, v := a / 10_000.0, b / 10_000.0;
    assert x * u + x * v == x * (u + v);
  }

  lemma Distribute(x: real, y: real, rate: real)
    ensures (x + y) * rate == x * rate + y * rate
  {
  }

  // Both charges on a notional together.
  lemma ChargesTogether(notional: real, a: real, b: real)
    ensures Charge(notional, a) + Charge(notional, b) == Abs(notional) * RateOf(a, b)
  {
    SplitRate(Abs(notional), a, b);
  }

  lemma CostStep(t: Tape, i: nat)
    requires t.Valid() && i < |t.bars|
    ensures t.FilledAt(i) ==>
              && t.Turnover(i + 1) == t.Turnover(i) + Abs(t.Notional(i))
              && t.Costs(i + 1) == t.Costs(i) + Abs(t.Notional(i)) * t.Rate()
    ensures !t.FilledAt(i) ==> t.Turnover(i + 1) == t.Turnover(i) && t.Costs(i + 1) == t.Costs(i)
  {
    ChargesTogether(t.Notional(i), t.transactionBps, t.slippageBps);
    hide Charge, RateOf, Abs, Tape.Notional, Tape.FilledAt;
  }

  lemma {:induction false} CostsAreTurnover(t: Tape, k: nat)
    requires t.Valid() && k <= |t.bars|
    ensures t.Costs(k) == t.Turnover(k) * t.Rate()
    decreases k
  {
    if k > 0 {
      hide *;
      var i := k - 1;
      CostsAreTurnover(t, i);
      CostStep(t, i);
      Distribute(t.Turnover(i), Abs(t.Notional(i)), t.Rate());
      assert i + 1 == k;
    }
  }

  // ---------- Conservation, fill by fill ----------

  /** What the fills of the first k bars would be worth, less what was paid, at price `mark`. */
  function FillGains(t: Tape, k: nat, mark: real): real
    requires t.Valid() && k <= |t.bars|
  {
    if k == 0 then 0.0
    else
      FillGains(t, k - 1, mark)
      + (if t.FilledAt(k - 1) then Worth(t.FillQuantity(k - 1), mark - t.bars[k - 1].open) else 0.0)
  }

  lemma NoFillOrFill(t: Tape, i: nat)
    requires t.Valid() && i < |t.bars|
    ensures t.Held(i + 1) == t.Held(i) + t.FillQuantity(i)
    ensures !t.FilledAt(i) ==> t.FillQuantity(i) == 0
  {
    hide Position, Ordered;
    if !t.FilledAt(i) {
      NoFillNoMove(t.proposals, t.lag, i);
    }
  }

  // What bar i does to cash and costs together, filled or not: the quantity changes hands at the open.
  lemma BarBooks(t: Tape, i: nat)
    requires t.Valid() && i < |t.bars|
    ensures t.Cash(i + 1) + t.Costs(i + 1) == t.Cash(i) + t.Costs(i) - Worth(t.FillQuantity(i), t.bars[i].open)
    ensures t.Held(i + 1) == t.Held(i) + t.FillQuantity(i)
  {
    NoFillOrFill(t, i);
    WorthOfNone(t.bars[i].open);
    hide Worth, Tape.FilledAt, Tape.FillQuantity, Tape.Held, Tape.TransactionCost, Tape.Slippage;
  }

  lemma GainsStep(t: Tape, i: nat, mark: real)
    requires t.Valid() && i < |t.bars|
    ensures FillGains(t, i + 1, mark) == FillGains(t, i, mark) + Worth(t.FillQuantity(i), mark - t.bars[i].open)
  {
    NoFillOrFill(t, i);
    WorthOfNone(mark - t.bars[i].open);
    hide Worth, Tape.FilledAt, Tape.FillQuantity, Tape.Held;
  }

  lemma WorthOfNone(price: real)
    ensures Worth(0, price) == 0.0
  {
  }

  lemma WorthAdds(u: int, q: int, price: real)
    ensures Worth(u + q, price) == Worth(u, price) + Worth(q, price)
  {
    Distribute(u as real, q as real, price);
  }

  lemma WorthOfChange(q: int, from: real, to: real)
    ensures Worth(q, to - from) == Worth(q, to) - Worth(q, from)
  {
    Distribute(to - from, from, q as real);
  }

  /** Cash, the costs paid and the position at any price `mark` are the starting cash and what the fills gained at it. */
  lemma {:induction false} WealthFromFills(t: Tape, k: nat, mark: real)
    requires t.Valid() && k <= |t.bars|
    ensures t.Cash(k) + t.Costs(k) + Worth(t.Held(k), mark) == t.startingCash + FillGains(t, k, mark)
  {
    if k == 0 {
      WorthOfNone(mark);
    } else {
      var i := k - 1;
      var u, q, open := t.Held(i), t.FillQuantity(i), t.bars[i].open;
      hide *;
      WealthFromFills(t, i, mark);
      BarBooks(t, i);
      GainsStep(t, i, mark);
      WorthAdds(u, q, mark);
      WorthOfChange(q, open, mark);
    }
  }

  /** Gross profit is exactly what each fill gained by the final close. */
  lemma GrossPnlByFills(t: Tape)
    requires t.Valid()
    ensures t.GrossPnl() == FillGains(t, |t.bars|, t.LastClose())
  {
    WealthFromFills(t, |t.bars|, t.LastClose());
  }

  // ---------- Conservation, bar by bar ----------

  // The price change a position earns across bar i: the overnight gap on what was carried
  // in, the open-to-close move on what is held after the fill.
  function BarGain(t: Tape, i: nat): real
    requires t.Valid() && i < |t.bars|
  {
    (if i == 0 then 0.0 else Worth(t.Held(i), t.bars[i].open - t.bars[i - 1].close))
    + Worth(t.Held(i + 1), t.bars[i].close - t.bars[i].open)
  }

  function BarGains(t: Tape, k: nat): real
    requires t.Valid() && k <= |t.bars|
  {
    if k == 0 then 0.0 else BarGains(t, k - 1) + BarGain(t, k - 1)
  }

  lemma {:induction false} WealthFromBars(t: Tape, k: nat)
    requires t.Valid() && 0 < k <= |t.bars|
    ensures t.Cash(k) + t.Costs(k) + Worth(t.Held(k), t.bars[k - 1].close) == t.startingCash + BarGains(t, k)
  {
    var i := k - 1;
    var u, q, open, close := t.Held(i), t.FillQuantity(i), t.bars[i].open, t.bars[i].close;
    BarBooks(t, i);
    WorthAdds(u, q, close);
    WorthAdds(u, q, open);
    WorthOfChange(u + q, open, close);
    hide Worth, Tape.Held, Tape.FillQuantity;
    if i == 0 {
      FirstBarGains(t);
    } else {
      hide Tape.Cash, Tape.Costs;
      WealthFromBars(t, i);
      WorthOfChange(u, t.bars[i - 1].close, open);
    }
  }

  lemma FirstBarGains(t: Tape)
    requires t.Valid()
    ensures BarGains(t, 0) == 0.0 && t.Held(0) == 0 && Worth(0, t.bars[0].open) == 0.0
    ensures t.Cash(0) == t.startingCash && t.Costs(0) == 0.0
  {
    WorthOfNone(t.bars[0].open);
  }

  /** Gross profit is also the sum over bars of exposure times price change. */
  lemma GrossPnlByBars(t: Tape)
    requires t.Valid()
    ensures t.GrossPnl() == BarGains(t, |t.bars|)
  {
    WealthFromBars(t, |t.bars|);
  }

  // ---------- The price path bounds the profit ----------

  function BarVariation(bars: seq<Bar>, i: nat): real
    requires i < |bars|
  {
    (if i == 0 then 0.0 else Abs(bars[i].open - bars[i - 1].close)) + Abs(bars[i].close - bars[i].open)
  }

  function Variation(bars: seq<Bar>, k: nat): real
    requires k <= |bars|
  {
    if k == 0 then 0.0 else Variation(bars, k - 1) + BarVariation(bars, k - 1)
  }

  lemma UnitTimesChange(u: int, d: real)
    requires -1 <= u <= 1
    ensures -Abs(d) <= Worth(u, d) <= Abs(d)
  {
    if u == -1 {
      assert u as real * d == -d;
    } else if u == 0 {
      assert u as real * d == 0.0;
    } else {
      assert u as real * d == d;
    }
  }

  lemma HeldBounds(t: Tape, k: nat)
    requires t.Valid() && UnitTargets(t.proposals) && k <= |t.bars|
    ensures -1 <= t.Held(k) <= 1
  {
    if k > 0 {
      UnitBounds(t.proposals, t.lag, k - 1);
    }
  }

  lemma BarGainWithinVariation(t: Tape, i: nat)
    requires t.Valid() && UnitTargets(t.proposals) && i < |t.bars|
    ensures Abs(BarGain(t, i)) <= BarVariation(t.bars, i)
  {
    HeldBounds(t, i);
    HeldBounds(t, i + 1);
    UnitTimesChange(t.Held(i + 1), t.bars[i].close - t.bars[i].open);
    if i > 0 {
      UnitTimesChange(t.Held(i), t.bars[i].open - t.bars[i - 1].close);
    }
    hide Worth, Tape.Held;
  }

  lemma {:induction false} GainsWithinVariation(t: Tape, k: nat)
    requires t.Valid() && UnitTargets(t.proposals) && k <= |t.bars|
    ensures Abs(BarGains(t, k)) <= Variation(t.bars, k)
  {
    if k > 0 {
      GainsWithinVariation(t, k - 1);
      BarGainWithinVariation(t, k - 1);
    }
  }

  /** No strategy limited to one unit can earn or lose more than the price moved in total. */
  lemma GrossPnlWithinVariation(t: Tape)
    requires t.Valid() && UnitTargets(t.proposals)
    ensures Abs(t.GrossPnl()) <= Variation(t.bars, |t.bars|)
  {
    GrossPnlByBars(t);
    GainsWithinVariation(t, |t.bars|);
  }

  // ---------- Prefixes ----------

  // The same proposals and terms, with other costs or capital: nothing but cash moves.
  lemma {:induction false} TurnoverIgnoresTerms(a: Tape, b: Tape, k: nat)
    requires a.Valid() && k <= |a.bars|
    requires b == a.(transactionBps := b.transactionBps, slippageBps := b.slippageBps, startingCash := b.startingCash)
    ensures a.Turnover(k) == b.Turnover(k) && a.Trades(k) == b.Trades(k)
  {
    if k > 0 {
      TurnoverIgnoresTerms(a, b, k - 1);
    }
  }

  lemma {:induction false} FillGainsIgnoreTerms(a: Tape, b: Tape, k: nat, mark: real)
    requires a.Valid() && k <= |a.bars|
    requires b == a.(transactionBps := b.transactionBps, slippageBps := b.slippageBps, startingCash := b.startingCash)
    ensures FillGains(a, k, mark) == FillGains(b, k, mark)
  {
    if k > 0 {
      FillGainsIgnoreTerms(a, b, k - 1, mark);
    }
  }

  lemma {:induction false} TurnoverNonNegative(t: Tape, k: nat)
    requires t.Valid() && k <= |t.bars|
    ensures t.Turnover(k) >= 0.0
  {
    if k > 0 {
      TurnoverNonNegative(t, k - 1);
    }
  }

  // Books through bar k need the bars and positions through bar k only.
  ghost predicate SameThrough(a: Tape, b: Tape, k: nat)
    requires a.Valid() && b.Valid() && k <= |a.bars| && k <= |b.bars|
  {
    && a.transactionBps == b.transactionBps
    && a.slippageBps == b.slippageBps
    && a.startingCash == b.startingCash
    && (forall i: nat | i < k :: a.bars[i] == b.bars[i])
    && (forall i: nat | i < k :: a.FilledAt(i) == b.FilledAt(i))
    && (forall i: nat | i < k :: a.FillQuantity(i) == b.FillQuantity(i))
  }

  lemma {:induction false} LedgerCausal(a: Tape, b: Tape, k: nat)
    requires a.Valid() && b.Valid() && k <= |a.bars| && k <= |b.bars| && SameThrough(a, b, k)
    ensures a.Cash(k) == b.Cash(k) && a.Costs(k) == b.Costs(k)
    ensures a.Turnover(k) == b.Turnover(k) && a.Trades(k) == b.Trades(k)
  {
    if k > 0 {
      LedgerCausal(a, b, k - 1);
      assert a.FilledAt(k - 1) == b.FilledAt(k - 1);
      assert a.Notional(k - 1) == b.Notional(k - 1);
    }
  }

  // ---------- Constant exposure ----------

  // What the fill of bar i does under a constant proposal: it trades at bar `lag` only.
  lemma ConstantFill(t: Tape, c: int, i: nat)
    requires t.Valid() && i < |t.bars| && Constant(t.proposals, c) && -1 <= c <= 1
    ensures t.Held(i + 1) == if i < t.lag then 0 else c
    ensures i < t.lag ==> !t.FilledAt(i)
    ensures i == t.lag && c == 0 ==> !t.FilledAt(i)
    ensures i == t.lag && c != 0 ==>
              var notional := Worth(c, t.bars[i].open);
              && t.FilledAt(i) && Abs(t.Notional(i)) == Abs(notional)
              && t.CashDelta(i) == -notional - Abs(notional) * t.Rate()
    ensures i > t.lag ==> t.CashDelta(i) == 0.0 && Abs(t.Notional(i)) == 0.0
  {
    hide Position, Target, Worth, Charge;
    ConstantSchedule(t.proposals, t.lag, c, i);
    if i > 0 {
      ConstantSchedule(t.proposals, t.lag, c, i - 1);
    }
    ChargesTogether(t.Notional(i), t.transactionBps, t.slippageBps);
    if i > t.lag {
      WorthOfNone(t.bars[i].open);
      NoCharge(t.transactionBps);
      NoCharge(t.slippageBps);
    }
  }

  lemma NoCharge(bps: real)
    ensures Charge(0.0, bps) == 0.0
  {
  }

  /**
   Proposing `c` at every bar earns `c` units from bar `lag`'s open to the final close and
   pays the costs of the single fill that moves anything.
   */
  lemma {:induction false} ConstantCash(t: Tape, c: int, k: nat)
    requires t.Valid() && k <= |t.bars| && Constant(t.proposals, c) && -1 <= c <= 1
    ensures t.Held(k) == if k <= t.lag then 0 else c
    ensures k <= t.lag ==> t.Cash(k) == t.startingCash && t.Turnover(k) == 0.0
    ensures k > t.lag ==>
              var price := t.bars[t.lag].open;
              var notional := c as real * price;
              t.Turnover(k) == Abs(notional)
              && t.Cash(k) == t.startingCash - notional - Abs(notional) * t.Rate()
    decreases k
  {
    if k > 0 {
      hide Position, Target, Worth, Charge, RateOf, Tape.Notional;
      var i := k - 1;
      ConstantCash(t, c, i);
      ConstantFill(t, c, i);
    }
  }
}
