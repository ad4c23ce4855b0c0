/** Concrete runs behind the exact conditions: a recorded target that is missed, and a benchmark comparison that fails. */
module Examples {
  import opened Wrappers
  import opened Market
  import opened Timing
  import opened Eligibility
  import opened Schedule
  import opened Journal
  import opened Audit
  import opened Snapshots
  import opened Backtest
  import opened Equivalences
  import opened Variants
  import opened VariantRuns

  function Daily(day: int, close: real): Bar {
    Bar(day * DAY, day * DAY, 100.0, close)
  }

  lemma DailyDate(day: int, close: real)
    ensures DayOf(Daily(day, close).timestamp) == day
  {
  }

  lemma DailyOrder(i: int, j: int, x: real, y: real)
    requires i < j
    ensures Daily(i, x).timestamp < Daily(j, y).timestamp
  {
  }

  lemma {:induction false} AllBetween(bars: seq<Bar>, first: int, last: int)
    requires forall b :: b in bars ==> first <= DayOf(b.timestamp) <= last
    ensures BarsBetween(bars, first, last) == bars
  {
    if bars != [] {
      AllBetween(bars[1..], first, last);
    }
  }

  // ---------- A missed target ----------

  // One bar up two percent among flat ones: the momentum variant wants one unit on the fourth bar only.
  function SpikeClose(day: int): real {
    if day == 3 then 102.0 else 100.0
  }

  function Spike(): (bars: seq<Bar>)
    ensures |bars| == 7 && Priced(bars)
    ensures forall i :: 0 <= i < 7 ==> bars[i] == Daily(i, SpikeClose(i))
  {
    [Daily(0, 100.0), Daily(1, 100.0), Daily(2, 100.0), Daily(3, 102.0), Daily(4, 100.0), Daily(5, 100.0), Daily(6, 100.0)]
  }

  function SpikeInputs(): StrategyInputs {
    StrategyInputs([], map[], map[], Spike())
  }

  function SpikeConfig(): Config {
    Config(0, 6, {Candidate}, 1000.0, 0.0, 0.0, 2, None)
  }

  lemma SpikeOrdered()
    ensures Increasing(Spike())
  {
    hide Daily;
    forall i, j | 0 <= i < j < 7
      ensures Spike()[i].timestamp < Spike()[j].timestamp
    {
      DailyOrder(i, j, SpikeClose(i), SpikeClose(j));
    }
  }

  lemma SpikeDated()
    ensures BarsBetween(Spike(), 0, 6) == Spike()
  {
    hide Daily, DayOf;
    var bars := Spike();
    forall b | b in bars
      ensures 0 <= DayOf(b.timestamp) <= 6
    {
      var i :| 0 <= i < 7 && bars[i] == b;
      DailyDate(i, SpikeClose(i));
    }
    AllBetween(bars, 0, 6);
  }

  lemma SpikeBars()
    ensures ValidBars(Spike()) && SliceBars(Spike(), Slice(0, 6)) == Spike()
  {
    hide Spike, Increasing, BarsBetween;
    SpikeOrdered();
    SpikeDated();
  }

  lemma SpikePositions(p: seq<int>)
    requires p == [0, 0, 0, 1, 0, 0, -1]
    ensures Position(p, 2, 4) == 0 && Target(p, 2, 4) == 0 && !Skipped(p, 2, 4)
    ensures Position(p, 2, 6) == 1
  {
    assert Position(p, 2, 0) == 0 && Position(p, 2, 1) == 0;
    assert Target(p, 2, 0) == 0 && Target(p, 2, 1) == 0;
    assert Position(p, 2, 2) == 0 && Position(p, 2, 3) == 0;
    assert Target(p, 2, 2) == 0 && Target(p, 2, 3) == 1;
    assert Position(p, 2, 4) == 0 && Position(p, 2, 5) == 1;
  }

  // The inputs of the momentum variant's run over these bars.
  function SpikeRun(context: Context): Inputs {
    BacktestInputs(SpikeInputs(), MomentumSignals(context, PriceOnlyBaseline, Spike()))
  }

  // What the run proposes day by day.
  function SpikeProposals(context: Context): (p: seq<int>)
    ensures |p| == 7
  {
    Proposals(Picks(SpikeRun(context), SpikeConfig(), Spike()))
  }

  // What it should propose on day i.
  function SpikeRule(i: int): int {
    if i < 3 then 0 else MomentumRule(SpikeClose(i), SpikeClose(i - 3))
  }

  lemma SpikeMaterialized(context: Context)
    ensures SpikeInputs().fixture == Spike() && Priced(SliceBars(Spike(), Slice(0, 6)))
    ensures SliceBars(Spike(), Slice(0, 6)) != []
    ensures SpikeRun(context)
         == BacktestInputs(SpikeInputs(), Materialize(PriceOnlyBaseline, context, SpikeInputs(), Slice(0, 6)))
  {
    SpikeBars();
    hide MomentumSignals, SliceBars, BacktestInputs, Spike;
  }

  lemma SpikeSettings()
    ensures Increasing(Spike()) && Candidate in SpikeConfig().allowlist && SpikeConfig().Buffer() == 0
    ensures Slice(0, 6) == Slice(SpikeConfig().testStart, SpikeConfig().testEnd)
  {
    SpikeOrdered();
  }

  lemma SpikeCloses(i: nat)
    requires i < 7
    ensures SpikeRule(i) == if i < 3 then 0 else MomentumRule(Spike()[i].close, Spike()[i - 3].close)
  {
  }

  lemma SpikeProposalsAre(context: Context)
    ensures SpikeProposals(context) == Proposals(Picks(SpikeRun(context), SpikeConfig(), Spike()))
  {
  }

  lemma SpikeProposalAt(context: Context, i: nat)
    requires i < 7
    ensures
      var x := SpikeRun(context);
      WindowBars(x, SpikeConfig()) == Spike() && SpikeProposals(context)[i] == SpikeRule(i)
  {
    SpikeBars();
    SpikeMaterialized(context);
    hide *;
    SpikeSettings();
    PlainPriceOnly(context, SpikeInputs(), Slice(0, 6), SpikeConfig(), i);
    SpikeCloses(i);
    SpikeProposalsAre(context);
  }

  lemma SpikeRules()
    ensures SpikeRule(0) == SpikeRule(1) == SpikeRule(2) == 0 && SpikeRule(3) == 1
    ensures SpikeRule(4) == SpikeRule(5) == 0 && SpikeRule(6) == -1
  {
  }

  lemma SpikeProposed(context: Context)
    ensures
      var x := SpikeRun(context);
      WindowBars(x, SpikeConfig()) == Spike() && SpikeProposals(context) == [0, 0, 0, 1, 0, 0, -1]
  {
    hide *;
    SpikeRules();
    SpikeProposalAt(context, 0);
    SpikeProposalAt(context, 1);
    SpikeProposalAt(context, 2);
    SpikeProposalAt(context, 3);
    SpikeProposalAt(context, 4);
    SpikeProposalAt(context, 5);
    SpikeProposalAt(context, 6);
  }

  lemma SpikeSignals(context: Context)
    ensures
      var x := SpikeRun(context);
      && x.fixture == Spike() && |x.signals| == 4
      && forall s :: s in x.signals ==> s.CreatedAt() == context.now && Windowed(SpikeConfig(), s)
  {
    SpikeBars();
    hide MomentumScore, StanceOf, SliceBars;
  }

  lemma SpikeCompletes(context: Context)
    ensures
      var x := SpikeRun(context);
      && x.fixture != [] && EnoughBars(x, SpikeConfig())
      && Run(x, SpikeConfig(), context.now) == Ok(Completed(x, SpikeConfig(), context.now))
  {
    SpikeSignals(context);
    SpikeProposalAt(context, 0);
    var x := SpikeRun(context);
    hide Picks, Materialize, Run, WindowBars, Completed, SpikeRun, SpikeRule;
    assert x.signals[0] in x.signals;
    RunOutcome(x, SpikeConfig(), context.now);
  }

  lemma SpikeReport(x: Inputs, picks: seq<Option<Signal>>, now: Time)
    requires x.fixture != [] && WindowBars(x, SpikeConfig()) == Spike() && picks == Picks(x, SpikeConfig(), Spike())
    ensures
      var report := Completed(x, SpikeConfig(), now);
      && |report.decisions| == 7 && report.decisions[4] == DecisionAt(Spike(), picks, 2, 4)
      && report.events != []
      && report.events[|report.events| - 1].positionAfter == Some(Position(Proposals(picks), 2, 6))
  {
    hide WindowBars, Picks, Proposals, Leakage, Anomalies, SignalSnapshot, PriceSnapshot, Events, DecisionAt, SummaryOf,
         Position, Benchmarks;
  }

  lemma SpikeFifth(picks: seq<Option<Signal>>)
    requires |picks| == 7 && Proposals(picks)[4] == Target(Proposals(picks), 2, 4) == Position(Proposals(picks), 2, 4) == 0
    requires !Skipped(Proposals(picks), 2, 4)
    ensures DecisionAt(Spike(), picks, 2, 4).targetUnits == 0 && DecisionAt(Spike(), picks, 2, 4).action.HoldCash?
  {
    hide Position, Target, Spike;
  }

  /**
   A run of the momentum variant, with a lag of two, that records a target it never reaches.
   The fifth decision asks for nothing, holds nothing and so records zero; the order of the
   fourth is still in flight, fills one bar later, and the run ends, two bars after the fifth
   decision, holding one unit.
   */
  lemma TargetMissed(context: Context)
    ensures SliceBars(Spike(), Slice(0, 6)) != [] && Priced(SliceBars(Spike(), Slice(0, 6)))
    ensures
      var x := BacktestInputs(SpikeInputs(), Materialize(PriceOnlyBaseline, context, SpikeInputs(), Slice(0, 6)));
      && x.fixture != []
      && var result := Run(x, SpikeConfig(), context.now);
         && result.Ok? && |result.value.decisions| == 7
         && result.value.decisions[4].targetUnits == 0 && result.value.decisions[4].action.HoldCash?
         && result.value.events != []
         && result.value.events[|result.value.events| - 1].positionAfter == Some(1)
  {
    hide *;
    SpikeMaterialized(context);
    SpikeProposed(context);
    SpikeProposalsAre(context);
    SpikeCompletes(context);
    var x := SpikeRun(context);
    var picks := Picks(x, SpikeConfig(), Spike());
    SpikePositions(Proposals(picks));
    SpikeReport(x, picks, context.now);
    SpikeFifth(picks);
  }

  // ---------- A benchmark out of reach ----------

  const LATE_SIGNAL: Signal :=
    Variant(VariantSignal("s", PriceOnlyBaseline, Positive, 1.0, 0, Some(Window(0, None)), 0, Candidate, [], ["p"]))

  // Two bars, one always positive signal, and a lag of two that no fill can meet.
  const LATE_INPUTS: Inputs := Inputs([LATE_SIGNAL], map[], map[], [Daily(0, 100.0), Daily(1, 110.0)])
  const LATE_CONFIG: Config := Config(0, 1, {Candidate}, 1000.0, 0.0, 0.0, 2, None)

  lemma LateBars()
    ensures ValidBars(LATE_INPUTS.fixture) && WindowBars(LATE_INPUTS, LATE_CONFIG) == LATE_INPUTS.fixture
  {
    DailyDate(0, 100.0);
    DailyDate(1, 110.0);
    AllBetween(LATE_INPUTS.fixture, 0, 1);
  }

  lemma LateProposes()
    ensures AlwaysProposes(LATE_INPUTS, LATE_CONFIG, 1)
  {
    LateBars();
    hide Select, WindowBars;
    var bars := WindowBars(LATE_INPUTS, LATE_CONFIG);
    forall i | 0 <= i < |bars|
      ensures Proposal(Select(LATE_INPUTS, LATE_CONFIG, BuildCutoff(bars[i].timestamp))) == 1
    {
      SelectionWins(LATE_INPUTS, LATE_CONFIG, BuildCutoff(bars[i].timestamp));
      assert LATE_SIGNAL in LATE_INPUTS.signals;
    }
  }

  /** A free, always positive run that ends where it started while buy-and-hold gains the last bar's ten. */
  lemma BenchmarkMissed()
    ensures
      var result := Run(LATE_INPUTS, LATE_CONFIG, 0);
      && result.Ok? && |result.value.benchmarks| == 2
      && AlwaysProposes(LATE_INPUTS, LATE_CONFIG, 1)
      && result.value.summary.endingValue == 1000.0 && result.value.benchmarks[1].endingValue == 1010.0
  {
    LateBars();
    LateProposes();
    hide Run, WindowBars, Completed, AlwaysProposes;
    RunOutcome(LATE_INPUTS, LATE_CONFIG, 0);
    assert LATE_SIGNAL in LATE_INPUTS.signals && Windowed(LATE_CONFIG, LATE_SIGNAL);
    CompletedBenchmarks(LATE_INPUTS, LATE_CONFIG, 0);
    BenchmarkEquivalence(LATE_INPUTS, LATE_CONFIG, 0);
  }
}
