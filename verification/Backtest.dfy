/**
 One whole backtest as a function of its inputs, its configuration and the clock: the error
 cases in the order they are met, and the report of a completed run.
 */
module Backtest {
  import opened Wrappers
  import opened Sequences
  import opened Market
  import opened Timing
  import opened Eligibility
  import opened Ledger
  import opened Journal
  import opened Audit
  import opened Snapshots

  datatype RunError = TooFewBars | SignalSnapshotOutOfOrder | NoTimingSafeSignal | NonPositiveBenchmark

  datatype Summary = Summary(
    startingCash: real,
    endingValue: real,
    grossPnl: real,
    netPnl: real,
    tradeCount: nat,
    turnover: real)

  datatype Report = Report(
    signalSnapshot: Snapshot,
    priceSnapshot: Snapshot,
    decisions: seq<Decision>,
    events: seq<Event>,
    summary: Summary,
    benchmarks: seq<Benchmark>,
    leakageChecks: seq<Leak>,
    anomalies: seq<Anomaly>,
    decisionCutoffTime: Time)

  function WindowBars(inputs: Inputs, config: Config): seq<Bar> {
    BarsBetween(inputs.fixture, config.testStart, config.testEnd)
  }

  // The signal picked at each bar.
  function Picks(inputs: Inputs, config: Config, bars: seq<Bar>): (picks: seq<Option<Signal>>)
    ensures |picks| == |bars|
    ensures forall i :: 0 <= i < |bars| ==> picks[i] == Select(inputs, config, BuildCutoff(bars[i].timestamp))
  {
    seq(|bars|, i requires 0 <= i < |bars| => Select(inputs, config, BuildCutoff(bars[i].timestamp)))
  }

  function RunTape(inputs: Inputs, config: Config): (t: Tape)
    ensures |WindowBars(inputs, config)| >= 1 ==> t.Valid()
  {
    var bars := WindowBars(inputs, config);
    TapeOf(bars, Picks(inputs, config, bars), config)
  }

  function SummaryOf(t: Tape): Summary
    requires t.Valid()
  {
    Summary(t.startingCash, t.EndingValue(), t.GrossPnl(), t.NetPnl(), t.Trades(|t.bars|), t.Turnover(|t.bars|))
  }

  // What a run reports when nothing refuses it.
  function Completed(inputs: Inputs, config: Config, now: Time): Report
    requires |WindowBars(inputs, config)| >= 1 && inputs.fixture != [] && config.startingCash > 0.0
  {
    var bars := WindowBars(inputs, config);
    var picks := Picks(inputs, config, bars);
    var last := BuildCutoff(bars[|bars| - 1].timestamp);
    Report(
      SignalSnapshot(inputs.signals, now, last),
      PriceSnapshot(inputs.fixture, now, last),
      Decisions(bars, picks, config.lag, |bars|),
      FullLog(bars, picks, config),
      SummaryOf(TapeOf(bars, picks, config)),
      Benchmarks(bars, config),
      Leakage(inputs, config, bars, |bars|),
      Anomalies(inputs.signals, config, |bars|),
      last.decisionTime)
  }

  function Run(inputs: Inputs, config: Config, now: Time): Result<Report, RunError>
    requires inputs.fixture != [] && config.startingCash > 0.0
  {
    var bars := WindowBars(inputs, config);
    if |bars| < 2 then Err(TooFewBars)
    else if !SignalSnapshot(inputs.signals, now, BuildCutoff(bars[|bars| - 1].timestamp)).Ordered()
      then Err(SignalSnapshotOutOfOrder)
    else if inputs.signals != [] && SafeIds(inputs.signals, config, |inputs.signals|) == {} then Err(NoTimingSafeSignal)
    else if Benchmarks(bars, config)[1].endingValue <= 0.0 then Err(NonPositiveBenchmark)
    else Ok(Completed(inputs, config, now))
  }

  lemma WindowBarsValid(inputs: Inputs, config: Config)
    requires Increasing(inputs.fixture) && Priced(inputs.fixture)
    ensures Increasing(WindowBars(inputs, config)) && Priced(WindowBars(inputs, config))
  {
    BarsBetweenIncreasing(inputs.fixture, config.testStart, config.testEnd);
    BarsBetweenPriced(inputs.fixture, config.testStart, config.testEnd);
  }

  lemma SafeIdsEmpty(signals: seq<Signal>, config: Config)
    ensures SafeIds(signals, config, |signals|) == {} <==> forall s :: s in signals ==> !Windowed(config, s)
  {
    var safe := SafeIds(signals, config, |signals|);
    if safe == {} {
      forall s | s in signals
        ensures !Windowed(config, s)
      {
        var i :| 0 <= i < |signals| && signals[i] == s;
        assert s.Id() !in safe;
      }
    } else {
      var id :| id in safe;
      var i :| 0 <= i < |signals| && Windowed(config, signals[i]) && signals[i].Id() == id;
      assert signals[i] in signals;
    }
  }

  // Each of the four ways a run can be refused, in terms of what was loaded.

  ghost predicate EnoughBars(inputs: Inputs, config: Config) {
    |WindowBars(inputs, config)| >= 2
  }

  ghost predicate SignalsDated(inputs: Inputs, config: Config, now: Time)
    requires EnoughBars(inputs, config)
  {
    var bars := WindowBars(inputs, config);
    var last := BuildCutoff(bars[|bars| - 1].timestamp);
    if inputs.signals == [] then last.decisionTime <= now
    else forall s :: s in inputs.signals ==> CreatedInTime(inputs.signals, now, last, s)
  }

  ghost predicate TimingEstablished(inputs: Inputs, config: Config) {
    inputs.signals == [] || exists s :: s in inputs.signals && Windowed(config, s)
  }

  ghost predicate BenchmarkSolvent(inputs: Inputs, config: Config)
    requires EnoughBars(inputs, config)
  {
    var bars := WindowBars(inputs, config);
    config.startingCash + bars[|bars| - 1].close > FirstHeldBar(bars, config.lag).open
  }

  /**
   A run completes exactly when its window has two bars, its signals are dated in time, some
   signal is both allowed and windowed unless there are none, and holding one unit could not
   have exhausted the cash; otherwise it is refused for the first of these that fails.
   */
  lemma RunOutcome(inputs: Inputs, config: Config, now: Time)
    requires inputs.fixture != [] && config.startingCash > 0.0
    ensures
      var result := Run(inputs, config, now);
      if !EnoughBars(inputs, config) then result == Err(TooFewBars)
      else if !SignalsDated(inputs, config, now) then result == Err(SignalSnapshotOutOfOrder)
      else if !TimingEstablished(inputs, config) then result == Err(NoTimingSafeSignal)
      else if !BenchmarkSolvent(inputs, config) then result == Err(NonPositiveBenchmark)
      else result == Ok(Completed(inputs, config, now))
  {
    hide WindowBars, Completed, SafeIds, SignalSnapshot, Windowed;
    SafeIdsEmpty(inputs.signals, config);
    if EnoughBars(inputs, config) {
      var bars := WindowBars(inputs, config);
      SignalSnapshotOrdered(inputs.signals, now, BuildCutoff(bars[|bars| - 1].timestamp));
    }
  }

  /**
   What a completed report's audit trail holds: each signal refused at a decision it was
   timely for is named, and each allowed signal without a window is on record exactly once.
   */
  lemma ReportAudit(inputs: Inputs, config: Config, now: Time, i: nat, s: Signal)
    requires inputs.fixture != [] && config.startingCash > 0.0
    requires EnoughBars(inputs, config) && i < |WindowBars(inputs, config)| && s in inputs.signals
    ensures
      var report, t := Completed(inputs, config, now), WindowBars(inputs, config)[i].timestamp;
      && (Timely(config, s, BuildCutoff(t)) && !(LineageClosed(inputs, s) && FeaturesReady(inputs, s, t)) ==>
            exists e :: e in report.leakageChecks && e.Refuses(s.Id()))
      && NoDuplicates(report.leakageChecks)
      && DistinctTargets(report.anomalies)
      && TargetIds(report.anomalies) == UnwindowedIds(inputs.signals, config)
  {
    hide WindowBars, Picks, Leakage, Anomalies, FullLog, Decisions, SafeIds, SummaryOf, SignalSnapshot, PriceSnapshot,
         Timely, LineageClosed, FeaturesReady, Benchmarks, TargetIds, UnwindowedIds, NoDuplicates, DistinctTargets;
    var bars := WindowBars(inputs, config);
    LeakageExact(inputs, config, bars, |bars|);
    AnomaliesExact(inputs.signals, config, |bars|);
    if Timely(config, s, BuildCutoff(bars[i].timestamp))
       && !(LineageClosed(inputs, s) && FeaturesReady(inputs, s, bars[i].timestamp)) {
      RefusalsAreRecorded(inputs, config, bars, i, |bars|, s);
    }
  }

  // The completed report, field by field.
  lemma CompletedReport(inputs: Inputs, config: Config, now: Time)
    requires |WindowBars(inputs, config)| >= 1 && inputs.fixture != [] && config.startingCash > 0.0
    ensures
      var bars := WindowBars(inputs, config);
      var picks := Picks(inputs, config, bars);
      var t, bs := TapeOf(bars, picks, config), Benchmarks(bars, config);
      var last, lastBar := BuildCutoff(bars[|bars| - 1].timestamp), bars[|bars| - 1];
      Completed(inputs, config, now)
      == Report(SignalSnapshot(inputs.signals, now, last),
                PriceSnapshot(inputs.fixture, now, last),
                Decisions(bars, picks, config.lag, |bars|),
                Events(bars, picks, config, |bars|)
                + [BenchmarkEvent(lastBar, bs[0]), BenchmarkEvent(lastBar, bs[1]), EndEvent(lastBar, t.Held(|bars|))],
                SummaryOf(t), bs, Leakage(inputs, config, bars, |bars|), Anomalies(inputs.signals, config, |bars|),
                last.decisionTime)
  {
    hide WindowBars, Leakage, Anomalies, SignalSnapshot, PriceSnapshot, Picks, Decisions, Events, SafeIds, Benchmarks,
         Proposals, Tape.Held, SummaryOf;
  }

  lemma ReportReady(inputs: Inputs, config: Config)
    requires ValidBars(inputs.fixture) && EnoughBars(inputs, config)
    ensures |WindowBars(inputs, config)| >= 2 && inputs.fixture != [] && Increasing(inputs.fixture)
  {
    hide WindowBars;
  }

  /**
   What a completed report says of its data: the fixture's span, the last decision time, and
   when information and snapshot end.
   */
  lemma ReportSnapshots(inputs: Inputs, config: Config, now: Time)
    requires ValidBars(inputs.fixture) && config.startingCash > 0.0 && EnoughBars(inputs, config)
    ensures
      var report, bars := Completed(inputs, config, now), WindowBars(inputs, config);
      var last, end := bars[|bars| - 1].timestamp, inputs.fixture[|inputs.fixture| - 1].timestamp;
      var price := report.priceSnapshot;
      && report.decisionCutoffTime == last
      && report.signalSnapshot == SignalSnapshot(inputs.signals, now, Cutoff(last, last))
      && price.eventTimeStart == Some(inputs.fixture[0].timestamp) && price.watermark == Some(end)
      && price.informationCutoff == Some(if end >= last then end else last)
      && price.snapshotTime == (if now >= price.informationCutoff.value then now else price.informationCutoff.value)
  {
    hide *;
    ReportReady(inputs, config);
    var last := WindowBars(inputs, config)[|WindowBars(inputs, config)| - 1].timestamp;
    CompletedReport(inputs, config, now);
    CutoffExact(last);
    PriceSnapshotExact(inputs.fixture, now, last);
  }
}
