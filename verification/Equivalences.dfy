/**
 Runs compared with each other and with the benchmarks: what costs and capital cannot
 influence, and what a run with an unchanging view must earn.
 */
module Equivalences {
  import opened Wrappers
  import opened Market
  import opened Timing
  import opened Eligibility
  import opened Schedule
  import opened Ledger
  import opened Journal
  import opened Audit
  import opened Backtest
  import Causality

  // ---------- Accounting of a completed run ----------

  lemma QuotedRate(config: Config)
    ensures config.Rate() == (config.transactionBps + config.slippageBps) / 10_000.0
  {
  }

  /**
   The reported figures are consistent with each other and with the prices: net is gross less
   turnover at the quoted rate, gross is what the fills gained by the final close, gross is
   also exposure times price change bar by bar, and it never exceeds the path's variation.
   */
  lemma ReportConservation(inputs: Inputs, config: Config, now: Time)
    requires ValidBars(inputs.fixture) && ValidConfig(config) && EnoughBars(inputs, config)
    ensures
      var summary, t := Completed(inputs, config, now).summary, RunTape(inputs, config);
      && summary.netPnl
         == summary.grossPnl - summary.turnover * ((config.transactionBps + config.slippageBps) / 10_000.0)
      && summary.startingCash == config.startingCash
      && summary.endingValue == config.startingCash + summary.netPnl
      && summary.grossPnl == FillGains(t, |t.bars|, t.LastClose())
      && summary.grossPnl == BarGains(t, |t.bars|)
      && Abs(summary.grossPnl) <= Variation(t.bars, |t.bars|)
      && summary.turnover >= 0.0
  {
    hide *;
    CompletedRun(inputs, config, now);
    TapeConservation(RunTape(inputs, config));
    QuotedRate(config);
  }

  lemma Runnable(inputs: Inputs, config: Config)
    requires ValidBars(inputs.fixture) && ValidConfig(config)
    ensures inputs.fixture != [] && config.startingCash > 0.0
    ensures EnoughBars(inputs, config) ==> |WindowBars(inputs, config)| >= 1
    ensures Priced(WindowBars(inputs, config))
  {
    WindowBarsValid(inputs, config);
  }

  lemma CompletedRun(inputs: Inputs, config: Config, now: Time)
    requires ValidBars(inputs.fixture) && ValidConfig(config) && EnoughBars(inputs, config)
    ensures |WindowBars(inputs, config)| >= 2
    ensures
      var t := RunTape(inputs, config);
      && t.Valid() && UnitTargets(t.proposals)
      && t.bars == WindowBars(inputs, config) && t.lag == config.lag
      && t.startingCash == config.startingCash && t.Rate() == config.Rate()
    ensures
      var summary, t := Completed(inputs, config, now).summary, RunTape(inputs, config);
      && summary.startingCash == config.startingCash
      && summary.endingValue == t.EndingValue() == config.startingCash + summary.netPnl
      && summary.grossPnl == t.GrossPnl() && summary.netPnl == t.NetPnl()
      && summary.turnover == t.Turnover(|t.bars|) && summary.tradeCount == t.Trades(|t.bars|)
  {
    hide WindowBars, Picks, Proposals, Leakage, Anomalies, FullLog, Decisions, SafeIds;
  }

  lemma TapeConservation(t: Tape)
    requires t.Valid() && UnitTargets(t.proposals)
    ensures t.NetPnl() == t.GrossPnl() - t.Turnover(|t.bars|) * t.Rate()
    ensures t.GrossPnl() == FillGains(t, |t.bars|, t.LastClose())
    ensures t.GrossPnl() == BarGains(t, |t.bars|)
    ensures Abs(t.GrossPnl()) <= Variation(t.bars, |t.bars|)
    ensures t.Turnover(|t.bars|) >= 0.0
  {
    CostsAreTurnover(t, |t.bars|);
    GrossPnlByFills(t);
    GrossPnlByBars(t);
    GrossPnlWithinVariation(t);
    TurnoverNonNegative(t, |t.bars|);
  }

  /** The event log of a completed run accounts for its summary, and no event identifier repeats. */
  lemma ReportReplay(inputs: Inputs, config: Config, now: Time)
    requires ValidBars(inputs.fixture) && ValidConfig(config) && EnoughBars(inputs, config)
    ensures
      var report, t := Completed(inputs, config, now), RunTape(inputs, config);
      var n := |t.bars|;
      && PositionsReplay(report.events)
      && config.startingCash + CashFlow(report.events) + FillFlow(report.events) as real * t.LastClose()
         == report.summary.endingValue
      && report.summary.grossPnl - report.summary.netPnl == CostFlow(report.events)
      && |report.decisions| == n
      && |report.events| == 2 * n + report.summary.tradeCount + 4
      && DistinctEventIds(report.events)
  {
    hide *;
    CompletedLog(inputs, config, now);
    CompletedRun(inputs, config, now);
    var bars := WindowBars(inputs, config);
    LogAccounts(bars, Picks(inputs, config, bars), config);
  }

  lemma CompletedLog(inputs: Inputs, config: Config, now: Time)
    requires ValidBars(inputs.fixture) && ValidConfig(config) && EnoughBars(inputs, config)
    ensures
      var report, bars := Completed(inputs, config, now), WindowBars(inputs, config);
      && |bars| >= 2 && Increasing(bars) && config.startingCash > 0.0
      && report.events == FullLog(bars, Picks(inputs, config, bars), config)
      && RunTape(inputs, config) == TapeOf(bars, Picks(inputs, config, bars), config)
      && |report.decisions| == |bars|
  {
    WindowBarsValid(inputs, config);
    hide WindowBars, Picks, Proposals, Leakage, Anomalies, FullLog, SafeIds, SummaryOf;
  }

  lemma LogAccounts(bars: seq<Bar>, picks: seq<Option<Signal>>, config: Config)
    requires |bars| == |picks| >= 1 && config.startingCash > 0.0 && Increasing(bars)
    ensures
      var log, t := FullLog(bars, picks, config), TapeOf(bars, picks, config);
      && PositionsReplay(log)
      && config.startingCash + CashFlow(log) + FillFlow(log) as real * t.LastClose() == t.EndingValue()
      && t.GrossPnl() - t.NetPnl() == CostFlow(log)
      && |log| == 2 * |bars| + t.Trades(|bars|) + 4
      && DistinctEventIds(log)
  {
    hide FullLog, DistinctEventIds, PositionsReplay, CashFlow, FillFlow, CostFlow, Tape.Cash, Tape.Costs, Tape.Held;
    ReplayFullLog(bars, picks, config);
    EventIdsDistinct(bars, picks, config);
  }

  // ---------- Costs and capital ----------

  ghost predicate SameButTerms(c: Config, d: Config) {
    d == c.(transactionBps := d.transactionBps, slippageBps := d.slippageBps, startingCash := d.startingCash)
  }

  lemma PicksIgnoreTerms(inputs: Inputs, c: Config, d: Config)
    requires SameButTerms(c, d)
    ensures WindowBars(inputs, c) == WindowBars(inputs, d)
    ensures Picks(inputs, c, WindowBars(inputs, c)) == Picks(inputs, d, WindowBars(inputs, d))
  {
    var bars := WindowBars(inputs, c);
    var p, q := Picks(inputs, c, bars), Picks(inputs, d, bars);
    forall i | 0 <= i < |p|
      ensures p[i] == q[i]
    {
      Causality.SelectionIgnores(inputs, inputs, c, d, BuildCutoff(bars[i].timestamp));
    }
  }

  // The same positions before every bar and the same fills at every bar.
  ghost predicate SameMoves(a: Tape, b: Tape) {
    && a.Valid() && b.Valid() && |a.bars| == |b.bars|
    && forall i: nat | i < |a.bars| ::
         a.Held(i) == b.Held(i) && a.FilledAt(i) == b.FilledAt(i) && a.FillQuantity(i) == b.FillQuantity(i)
  }

  lemma TermsKeepBars(inputs: Inputs, c: Config, d: Config)
    requires SameButTerms(c, d) && EnoughBars(inputs, c)
    ensures EnoughBars(inputs, d)
  {
    PicksIgnoreTerms(inputs, c, d);
  }

  lemma RatesMonotone(c: Config, d: Config)
    ensures c.transactionBps <= d.transactionBps && c.slippageBps <= d.slippageBps ==> c.Rate() <= d.Rate()
  {
  }

  lemma TermsMoveNothing(inputs: Inputs, c: Config, d: Config, now: Time)
    requires ValidBars(inputs.fixture) && ValidConfig(c) && ValidConfig(d) && SameButTerms(c, d)
    requires EnoughBars(inputs, c)
    ensures
      var r, r' := Completed(inputs, c, now), Completed(inputs, d, now);
      && r.decisions == r'.decisions
      && SameMoves(RunTape(inputs, c), RunTape(inputs, d))
      && r.summary.turnover == r'.summary.turnover
      && r.summary.tradeCount == r'.summary.tradeCount
      && r.summary.grossPnl == r'.summary.grossPnl
  {
    var a, b := RunTape(inputs, c), RunTape(inputs, d);
    SameTapes(inputs, c, d);
    SameDecisions(inputs, c, d, now);
    hide *;
    CompletedRun(inputs, c, now);
    CompletedRun(inputs, d, now);
    TapeIgnoresTerms(a, b);
  }

  lemma SameTapes(inputs: Inputs, c: Config, d: Config)
    requires SameButTerms(c, d)
    ensures
      var a, b := RunTape(inputs, c), RunTape(inputs, d);
      b == a.(transactionBps := b.transactionBps, slippageBps := b.slippageBps, startingCash := b.startingCash)
  {
    hide WindowBars, Picks, Proposals;
    PicksIgnoreTerms(inputs, c, d);
  }

  lemma SameDecisions(inputs: Inputs, c: Config, d: Config, now: Time)
    requires ValidBars(inputs.fixture) && ValidConfig(c) && ValidConfig(d) && SameButTerms(c, d)
    requires EnoughBars(inputs, c)
    ensures Completed(inputs, c, now).decisions == Completed(inputs, d, now).decisions
  {
    hide WindowBars, Picks, Proposals, Leakage, Anomalies, FullLog, DecisionAt, SafeIds, SummaryOf;
    PicksIgnoreTerms(inputs, c, d);
  }

  lemma TapeIgnoresTerms(a: Tape, b: Tape)
    requires a.Valid()
    requires b == a.(transactionBps := b.transactionBps, slippageBps := b.slippageBps, startingCash := b.startingCash)
    ensures SameMoves(a, b) && a.GrossPnl() == b.GrossPnl()
    ensures a.Turnover(|a.bars|) == b.Turnover(|b.bars|) && a.Trades(|a.bars|) == b.Trades(|b.bars|)
  {
    var n := |a.bars|;
    TurnoverIgnoresTerms(a, b, n);
    FillGainsIgnoreTerms(a, b, n, a.LastClose());
    GrossPnlByFills(a);
    GrossPnlByFills(b);
  }

  lemma RateDifference(turnover: real, x: real, y: real)
    requires turnover >= 0.0
    ensures turnover * (y - x) == turnover * y - turnover * x
    ensures x <= y ==> turnover * (y - x) >= 0.0
  {
  }

  /**
   Costs and starting capital influence no decision, no position, no fill and no gross result. The net
   result falls by turnover times the rise in the total rate, so it never improves when
   either rate rises.
   */
  lemma TermsIndependence(inputs: Inputs, c: Config, d: Config, now: Time)
    requires ValidBars(inputs.fixture) && ValidConfig(c) && ValidConfig(d) && SameButTerms(c, d)
    requires EnoughBars(inputs, c)
    ensures
      var r, r' := Completed(inputs, c, now), Completed(inputs, d, now);
      && r.decisions == r'.decisions
      && SameMoves(RunTape(inputs, c), RunTape(inputs, d))
      && r.summary.turnover == r'.summary.turnover
      && r.summary.tradeCount == r'.summary.tradeCount
      && r.summary.grossPnl == r'.summary.grossPnl
      && r'.summary.netPnl == r.summary.netPnl - r.summary.turnover * (d.Rate() - c.Rate())
      && (c.transactionBps <= d.transactionBps && c.slippageBps <= d.slippageBps ==>
            r'.summary.netPnl <= r.summary.netPnl)
  {
    hide *;
    TermsMoveNothing(inputs, c, d, now);
    TermsKeepBars(inputs, c, d);
    ReportConservation(inputs, c, now);
    ReportConservation(inputs, d, now);
    RatesMonotone(c, d);
    QuotedRate(c);
    QuotedRate(d);
    Runnable(inputs, c);
    RateDifference(Completed(inputs, c, now).summary.turnover, c.Rate(), d.Rate());
  }

  // ---------- An unchanging view ----------

  /** Every decision of the run proposes the same exposure. */
  ghost predicate AlwaysProposes(inputs: Inputs, config: Config, c: int) {
    var bars := WindowBars(inputs, config);
    forall i :: 0 <= i < |bars| ==> Proposal(Select(inputs, config, BuildCutoff(bars[i].timestamp))) == c
  }

  /**
   A completed run that proposes exposure `c` throughout holds `c` from the first executable
   bar on. If that bar exists it ends with the gain of `c` units from its open to the final
   close, less the cost of one fill, and counts min(lag, n - lag) fills of which only the
   first moves anything; otherwise, or for c = 0, it ends where it started without a fill.
   */
  lemma ConstantRun(inputs: Inputs, config: Config, now: Time, c: int)
    requires ValidBars(inputs.fixture) && ValidConfig(config) && EnoughBars(inputs, config)
    requires -1 <= c <= 1 && AlwaysProposes(inputs, config, c)
    ensures
      var summary, t := Completed(inputs, config, now).summary, RunTape(inputs, config);
      var n, lag := |t.bars|, config.lag;
      if c == 0 || n <= lag then summary.endingValue == config.startingCash && summary.tradeCount == 0
      else
        var open := t.bars[lag].open;
        && summary.endingValue
           == config.startingCash + c as real * (t.LastClose() - open) - open * config.Rate()
        && summary.tradeCount == (if lag <= n - lag then lag else n - lag)
        && forall i: nat | i < n && t.FilledAt(i) :: t.FillQuantity(i) == if i == lag then c else 0
  {
    hide *;
    Runnable(inputs, config);
    CompletedRun(inputs, config, now);
    ConstantProposals(inputs, config, c);
    ConstantTape(RunTape(inputs, config), c);
  }

  lemma ConstantProposals(inputs: Inputs, config: Config, c: int)
    requires AlwaysProposes(inputs, config, c)
    ensures Constant(RunTape(inputs, config).proposals, c)
  {
    hide WindowBars, Select;
  }

  lemma ConstantTape(t: Tape, c: int)
    requires t.Valid() && Constant(t.proposals, c) && -1 <= c <= 1 && Priced(t.bars)
    ensures
      var n, lag := |t.bars|, t.lag;
      if c == 0 || n <= lag then t.EndingValue() == t.startingCash && t.Trades(|t.bars|) == 0
      else
        var open := t.bars[lag].open;
        && t.EndingValue()
           == t.startingCash + c as real * (t.LastClose() - open) - open * t.Rate()
        && t.Trades(|t.bars|) == (if lag <= n - lag then lag else n - lag)
        && forall i: nat | i < n && t.FilledAt(i) :: t.FillQuantity(i) == if i == lag then c else 0
  {
    hide Tape.Cash, Tape.Turnover, Tape.Rate, FillCount, Position, Target;
    var n, lag := |t.bars|, t.lag;
    ConstantCash(t, c, n);
    ConstantFillCount(t.proposals, lag, c, n);
    forall i: nat | i < n && t.FilledAt(i)
      ensures t.FillQuantity(i) == if i == lag then c else 0
    {
      ConstantSchedule(t.proposals, lag, c, i);
      ConstantSchedule(t.proposals, lag, c, i - 1);
    }
    if c == 0 {
      assert t.Held(n) as real * t.LastClose() == 0.0;
    }
    if n > lag {
      UnitNotional(c, t.bars[lag].open, t.LastClose());
    }
  }

  lemma UnitNotional(c: int, open: real, close: real)
    requires -1 <= c <= 1 && open > 0.0
    ensures c as real * close - c as real * open == c as real * (close - open)
    ensures Abs(c as real * open) == if c == 0 then 0.0 else open
  {
    if c == 1 {
      assert c as real * open == open;
    } else if c == -1 {
      assert c as real * open == -open;
    } else {
      assert c as real * open == 0.0;
    }
  }

  lemma CompletedBenchmarks(inputs: Inputs, config: Config, now: Time)
    requires ValidBars(inputs.fixture) && ValidConfig(config) && EnoughBars(inputs, config)
    ensures
      var report, t := Completed(inputs, config, now), RunTape(inputs, config);
      && |report.benchmarks| == 2 && t.Valid()
      && report.benchmarks[0].kind == FlatBaseline && report.benchmarks[1].kind == BuyAndHold
      && report.benchmarks[0].endingValue == config.startingCash
      && report.benchmarks[1].endingValue
         == config.startingCash + (t.LastClose() - FirstHeldBar(t.bars, config.lag).open)
  {
    hide WindowBars, Picks, Proposals, Leakage, Anomalies, FullLog, Decisions, SafeIds, SummaryOf;
  }

  lemma HeldBarCases(bars: seq<Bar>, lag: Lag)
    requires bars != []
    ensures FirstHeldBar(bars, lag) == if lag < |bars| then bars[lag] else bars[|bars| - 1]
  {
  }

  lemma LastCloseOf(t: Tape)
    requires t.Valid()
    ensures t.LastClose() == t.bars[|t.bars| - 1].close
  {
  }

  /**
   Against the run's own benchmarks. A neutral or missing view throughout equals the flat
   baseline. A positive view throughout trails buy-and-hold by the cost of one fill when its
   fill fits into the window; otherwise it stays in cash while the benchmark still takes the
   last bar's move, so the two differ by that move. The cost of one fill is thus the difference
   exactly when the fill fits or the last bar happens to move by as much.
   */
  lemma BenchmarkEquivalence(inputs: Inputs, config: Config, now: Time)
    requires ValidBars(inputs.fixture) && ValidConfig(config) && EnoughBars(inputs, config)
    ensures |WindowBars(inputs, config)| >= 2
    ensures
      var report, bars := Completed(inputs, config, now), WindowBars(inputs, config);
      var ending, held := report.summary.endingValue, report.benchmarks[1].endingValue;
      var last, cost := bars[|bars| - 1], FirstHeldBar(bars, config.lag).open * config.Rate();
      AlwaysProposes(inputs, config, 1) ==>
        && (config.lag < |bars| ==> ending == held - cost)
        && (config.lag >= |bars| ==> ending == config.startingCash == held - (last.close - last.open))
        && (ending == held - cost
            <==> config.lag < |bars| || last.close - last.open == last.open * config.Rate())
    ensures
      var report := Completed(inputs, config, now);
      AlwaysProposes(inputs, config, 0) ==>
        report.summary.endingValue == report.benchmarks[0].endingValue && report.summary.tradeCount == 0
  {
    hide *;
    CompletedBenchmarks(inputs, config, now);
    CompletedRun(inputs, config, now);
    var t := RunTape(inputs, config);
    if AlwaysProposes(inputs, config, 1) {
      ConstantRun(inputs, config, now, 1);
      HeldBarCases(t.bars, config.lag);
      LastCloseOf(t);
    }
    if AlwaysProposes(inputs, config, 0) {
      ConstantRun(inputs, config, now, 0);
    }
  }
}
