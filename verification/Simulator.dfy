/**
 The simulation engine as it runs: one pass over the bars that updates cash, position, costs,
 turnover, the dictionary of pending fills, and the decision, event, leakage and anomaly
 logs in place.
 */
module Simulator {
  import opened Wrappers
  import opened Sequences
  import opened Market
  import opened Timing
  import opened Eligibility
  import opened Ledger
  import opened Journal
  import opened Machine
  import opened Audit
  import opened Snapshots
  import opened Backtest

  // ---------- Steps of the selection loop ----------

  // What the selection loop has done before it looks at any signal.
  lemma SelectionStart(log: seq<Leak>, anomalies: seq<Anomaly>, inputs: Inputs, config: Config, cutoff: Cutoff,
                       qualifies: Signal -> bool)
    ensures inputs.signals[..0] == [] && Filter([], qualifies) == []
    ensures AppendAllUnique(log, TimelyRefusals(inputs, config, cutoff, 0)) == log
    ensures NoteAnomalies(anomalies, inputs.signals, config, 0) == anomalies
    ensures SafeIds(inputs.signals, config, 0) == {}
  {
  }

  lemma AppendOne(log: seq<Leak>, e: Leak)
    ensures AppendAllUnique(log, [e]) == AppendUnique(log, e)
  {
    assert [e][1..] == [];
  }

  lemma SelectionPrefix(signals: seq<Signal>, j: nat, qualifies: Signal -> bool)
    requires j < |signals|
    ensures Filter(signals[..j + 1], qualifies)
         == Filter(signals[..j], qualifies) + (if qualifies(signals[j]) then [signals[j]] else [])
  {
    assert signals[..j + 1] == signals[..j] + [signals[j]];
    FilterConcat(signals[..j], [signals[j]], qualifies);
  }

  lemma SafeIdsStep(signals: seq<Signal>, config: Config, j: nat)
    requires j < |signals|
    ensures SafeIds(signals, config, j + 1)
         == SafeIds(signals, config, j) + (if Windowed(config, signals[j]) then {signals[j].Id()} else {})
  {
    var more := SafeIds(signals, config, j + 1);
    assert Windowed(config, signals[j]) ==> signals[j].Id() in more;
  }

  lemma TimelyRefusalsStep(log: seq<Leak>, inputs: Inputs, config: Config, cutoff: Cutoff, j: nat)
    requires j < |inputs.signals|
    ensures
      var s := inputs.signals[j];
      AppendAllUnique(log, TimelyRefusals(inputs, config, cutoff, j + 1))
      == AppendAllUnique(AppendAllUnique(log, TimelyRefusals(inputs, config, cutoff, j)),
                         if Timely(config, s, cutoff) then Refusals(inputs, s, cutoff.decisionTime) else [])
  {
    var s := inputs.signals[j];
    AppendAllUniqueConcat(log, TimelyRefusals(inputs, config, cutoff, j),
                          if Timely(config, s, cutoff) then Refusals(inputs, s, cutoff.decisionTime) else []);
  }

  lemma AnomaliesStep(signals: seq<Signal>, config: Config, k: nat)
    ensures Anomalies(signals, config, k + 1) == NoteAnomalies(Anomalies(signals, config, k), signals, config, |signals|)
  {
  }

  // ---------- The engine ----------

  class Engine {
    const inputs: Inputs
    const config: Config
    const bars: seq<Bar>

    var currentUnits: int
    var cash: real
    var totalCosts: real
    var turnover: real
    var tradeCount: nat
    var pending: map<nat, PendingFill>
    var decisions: seq<Decision>
    var events: seq<Event>
    var leakage: seq<Leak>
    var anomalies: seq<Anomaly>
    var safeIds: set<string>

    ghost function Account(): State
      reads `currentUnits, `cash, `totalCosts, `turnover, `tradeCount, `pending, `decisions, `events
    {
      State(currentUnits, cash, totalCosts, turnover, tradeCount, pending, decisions, events)
    }

    lemma AccountFields()
      ensures Account() == State(currentUnits, cash, totalCosts, turnover, tradeCount, pending, decisions, events)
    {
    }

    ghost predicate Audited(k: nat)
      reads this
      requires 1 <= |bars| && k <= |bars|
    {
      && leakage == Leakage(inputs, config, bars, k)
      && anomalies == Anomalies(inputs.signals, config, k)
      && safeIds == if k == 0 then {} else SafeIds(inputs.signals, config, |inputs.signals|)
    }

    // The state before bar k: the account the closed form prescribes, and the audit trail its bars call for.
    ghost predicate Valid(k: nat)
      reads this
    {
      && 1 <= |bars|
      && k <= |bars|
      && Account() == Specified(bars, Picks(inputs, config, bars), config, k)
      && Audited(k)
    }

    lemma BooksAt(k: nat)
      requires Valid(k)
      ensures 1 <= |bars| && k <= |bars|
      ensures
        var picks := Picks(inputs, config, bars);
        var t := TapeOf(bars, picks, config);
        && t.Valid() && t.bars == bars && t.startingCash == config.startingCash
        && currentUnits == t.Held(k) && cash == t.Cash(k) && totalCosts == t.Costs(k)
        && turnover == t.Turnover(k) && tradeCount == t.Trades(k)
        && decisions == Decisions(bars, picks, config.lag, k) && events == Events(bars, picks, config, k)
      ensures leakage == Leakage(inputs, config, bars, k) && anomalies == Anomalies(inputs.signals, config, k)
      ensures k > 0 ==> safeIds == SafeIds(inputs.signals, config, |inputs.signals|)
    {
      hide Picks, Proposals, ScheduledFills, Decisions, Events, Leakage, Anomalies, SafeIds,
           Tape.Held, Tape.Cash, Tape.Costs, Tape.Turnover, Tape.Trades;
    }

    constructor (inputs: Inputs, config: Config)
      requires |WindowBars(inputs, config)| >= 1
      ensures this.inputs == inputs && this.config == config
      ensures bars == WindowBars(inputs, config)
      ensures Valid(0)
    {
      hide WindowBars, Picks, Select, Leakage, InitialEntries, AppendAllUnique, NoteAnomalies, StepBar;
      var window := WindowBars(inputs, config);
      this.inputs, this.config, this.bars := inputs, config, window;
      currentUnits, cash, totalCosts, turnover, tradeCount := 0, config.startingCash, 0.0, 0.0, 0;
      pending, decisions := map[], [];
      events := [StartEvent(window[0])];
      leakage, anomalies, safeIds := [], [], {};
      new;
      AppendLeaks(InitialEntries(inputs, config, bars));
      LeakageStart(inputs, config, bars);
      MachineRefinesSchedule(bars, Picks(inputs, config, bars), config, 0);
    }

    // ---------- Logs ----------

    method AppendLeak(e: Leak)
      modifies this`leakage
      ensures leakage == AppendUnique(old(leakage), e)
    {
      if e !in leakage {
        leakage := leakage + [e];
      }
    }

    method AppendLeaks(entries: seq<Leak>)
      modifies this`leakage
      ensures leakage == AppendAllUnique(old(leakage), entries)
    {
      for j := 0 to |entries|
        invariant leakage == AppendAllUnique(old(leakage), entries[..j])
      {
        AppendAllUniqueConcat(old(leakage), entries[..j], [entries[j]]);
        assert entries[..j + 1] == entries[..j] + [entries[j]];
        AppendLeak(entries[j]);
      }
      assert entries[..|entries|] == entries;
    }

    // ---------- Signal selection ----------

    method ValidateSignal(s: Signal, decisionTime: Time) returns (ok: bool)
      modifies this`leakage
      ensures leakage == AppendAllUnique(old(leakage), Refusals(inputs, s, decisionTime))
      ensures ok <==> LineageClosed(inputs, s) && FeaturesReady(inputs, s, decisionTime)
    {
      ValidationExact(inputs, s, decisionTime);
      match s {
        case Research(r) =>
          if r.featureIds == [] {
            AppendLeak(WithoutFeatures(r.id));
            return false;
          }
          if r.evidenceIds == [] {
            AppendLeak(WithoutEvidence(r.id));
            return false;
          }
        case Variant(v) =>
          if v.snapshotIds == [] {
            AppendLeak(WithoutSnapshot(v.id));
            return false;
          }
          if NeedsSource(v.family) && v.sourceIds == [] {
            AppendLeak(WithoutSource(v.id));
            return false;
          }
          var unknown := FirstUnknown(v.sourceIds, inputs.researchById);
          if unknown.Some? {
            AppendLeak(UnknownSource(v.id, unknown.value));
            return false;
          }
      }
      var features := FeatureIds(inputs, s);
      var missing := MissingEntries(inputs, s.Id(), features);
      if missing != [] {
        AppendLeaks(missing);
        return false;
      }
      var future := FutureEntries(inputs, s.Id(), features, decisionTime);
      AppendLeaks(future);
      return future == [];
    }

    // One signal's turn in the selection loop.
    method ConsiderSignal(s: Signal, cutoff: Cutoff) returns (ok: bool)
      modifies this`leakage, this`anomalies, this`safeIds
      ensures ok <==> Eligible(inputs, config, cutoff, s)
      ensures leakage == AppendAllUnique(old(leakage),
                           if Timely(config, s, cutoff) then Refusals(inputs, s, cutoff.decisionTime) else [])
      ensures anomalies == NoteAnomaly(old(anomalies), config, s)
      ensures safeIds == old(safeIds) + (if Windowed(config, s) then {s.Id()} else {})
    {
      if s.Status() !in config.allowlist {
        return false;
      }
      if s.Window().None? {
        if s.Id() !in TargetIds(anomalies) {
          anomalies := anomalies + [Anomaly(s.Id(), s.EffectiveAt())];
        }
        return false;
      }
      safeIds := safeIds + {s.Id()};
      if !AvailableBy(s.Window().value, cutoff, config.Buffer()) {
        return false;
      }
      ok := ValidateSignal(s, cutoff.decisionTime);
      ValidationExact(inputs, s, cutoff.decisionTime);
    }

    method SelectSignal(cutoff: Cutoff) returns (pick: Option<Signal>)
      modifies this`leakage, this`anomalies, this`safeIds
      ensures pick == Select(inputs, config, cutoff)
      ensures leakage == AppendAllUnique(old(leakage), DecisionEntries(inputs, config, cutoff))
      ensures anomalies == NoteAnomalies(old(anomalies), inputs.signals, config, |inputs.signals|)
      ensures safeIds == old(safeIds) + SafeIds(inputs.signals, config, |inputs.signals|)
    {
      hide Filter, AppendAllUnique, TimelyRefusals, NoteAnomalies, NoteAnomaly, SafeIds, Timely, Windowed, Refusals,
           Eligible;
      var signals := inputs.signals;
      var eligible: seq<Signal> := [];
      ghost var qualifies := (s: Signal) => Eligible(inputs, config, cutoff, s);
      SelectionStart(leakage, anomalies, inputs, config, cutoff, qualifies);
      for j := 0 to |signals|
        invariant eligible == Filter(signals[..j], qualifies)
        invariant leakage == AppendAllUnique(old(leakage), TimelyRefusals(inputs, config, cutoff, j))
        invariant anomalies == NoteAnomalies(old(anomalies), signals, config, j)
        invariant safeIds == old(safeIds) + SafeIds(signals, config, j)
      {
        SelectionPrefix(signals, j, qualifies);
        SafeIdsStep(signals, config, j);
        NoteStep(old(anomalies), signals, config, j);
        TimelyRefusalsStep(old(leakage), inputs, config, cutoff, j);
        var ok := ConsiderSignal(signals[j], cutoff);
        if ok {
          eligible := eligible + [signals[j]];
        }
      }
      assert signals[..|signals|] == signals;
      assert eligible == EligibleSignals(inputs, config, cutoff);
      AppendAllUniqueConcat(old(leakage), TimelyRefusals(inputs, config, cutoff, |signals|), [FeatureAvailabilityPassed]);
      if eligible == [] {
        assert DecisionEntries(inputs, config, cutoff) == TimelyRefusals(inputs, config, cutoff, |signals|);
        return None;
      }
      AppendOne(leakage, FeatureAvailabilityPassed);
      AppendLeak(FeatureAvailabilityPassed);
      var ranked := Sort(eligible, Ranks);
      MembersOf(ranked, eligible);
      return Some(ranked[0]);
    }

    // ---------- One bar ----------

    // Execute the fill scheduled for this bar, if any, at its open.
    method FillPending(i: nat)
      requires i < |bars| && Account() == Specified(bars, Picks(inputs, config, bars), config, i)
      modifies this`currentUnits, this`cash, this`totalCosts, this`turnover, this`tradeCount, this`pending, this`events
      ensures Account() == Opened(bars, Picks(inputs, config, bars), config, i)
    {
      hide *;
      ghost var before := Account();
      AccountFields();
      FillRefines(bars, Picks(inputs, config, bars), config, i);
      FillFields(before, bars[i], config, i);
      if i in pending {
        var fill := pending[i];
        pending := pending - {i};
        var quantity := fill.targetUnits - currentUnits;
        var notional := Worth(quantity, bars[i].open);
        var transactionCost := Charge(notional, config.transactionBps);
        var slippage := Charge(notional, config.slippageBps);
        var cashDelta := -(notional + transactionCost + slippage);
        cash := cash + cashDelta;
        totalCosts := totalCosts + (transactionCost + slippage);
        turnover := turnover + Abs(notional);
        currentUnits := fill.targetUnits;
        tradeCount := tradeCount + 1;
        events := events + [Event(FillId(fill.decision), FillEvent, Some(fill.decision), bars[i].sessionOpen,
                                  Some(quantity), bars[i].open, transactionCost, slippage, cashDelta,
                                  Some(currentUnits))];
      }
      AccountFields();
    }

    // Record the decision drawn from the picked signal and schedule its fill.
    method RecordDecision(i: nat, pick: Option<Signal>)
      requires i < |bars| && pick == Picks(inputs, config, bars)[i]
      requires Account() == Opened(bars, Picks(inputs, config, bars), config, i)
      modifies this`pending, this`decisions, this`events
      ensures Account() == Decided(bars, Picks(inputs, config, bars), config, i)
    {
      hide *;
      ghost var before := Account();
      AccountFields();
      DecideRefines(bars, Picks(inputs, config, bars), config, i);
      var proposed := Proposal(pick);
      var action := ActionFor(currentUnits, proposed);
      var target := proposed;
      var fillBar := i + config.lag;
      if target != currentUnits && fillBar >= |bars| {
        action := SkipSignal;
        target := currentUnits;
      }
      var time := bars[i].timestamp;
      var id := DecisionIdOf(time, pick, action);
      var signalId := if pick.Some? then Some(pick.value.Id()) else None;
      var effectiveAt := if pick.Some? then Some(pick.value.EffectiveAt()) else None;
      decisions := decisions + [Decision(id, signalId, effectiveAt, BuildCutoff(time), action, target)];
      events := events + [Event(DecisionEventId(id), DecisionEvent, Some(id), time, Some(target), bars[i].close,
                                0.0, 0.0, 0.0, Some(currentUnits))];
      if target != currentUnits && action != SkipSignal {
        pending := pending[fillBar := PendingFill(id, target)];
      }
      DecideFields(before, bars[i], config, i, |bars|, pick, action, target);
      AccountFields();
    }

    method MarkToMarket(i: nat)
      requires i < |bars| && Account() == Decided(bars, Picks(inputs, config, bars), config, i)
      modifies this`events
      ensures Account() == Specified(bars, Picks(inputs, config, bars), config, i + 1)
    {
      hide *;
      AccountFields();
      MarkRefines(bars, Picks(inputs, config, bars), config, i);
      MarkFields(Account(), bars[i]);
      events := events + [Event(MarkId(bars[i].timestamp), MarkEvent, None, bars[i].timestamp, Some(currentUnits),
                                bars[i].close, 0.0, 0.0, 0.0, Some(currentUnits))];
      AccountFields();
    }

    method Step(i: nat)
      requires Valid(i) && i < |bars|
      modifies this
      ensures Valid(i + 1)
    {
      hide Account, Specified, Opened, Decided, Leakage, Anomalies, SafeIds, DecisionEntries, Select;
      LeakageStep(inputs, config, bars, i);
      AnomaliesStep(inputs.signals, config, i);
      FillPending(i);
      var pick := SelectSignal(BuildCutoff(bars[i].timestamp));
      RecordDecision(i, pick);
      MarkToMarket(i);
    }

    method RunBars()
      requires Valid(0)
      modifies this
      ensures Valid(|bars|)
    {
      hide *;
      for i := 0 to |bars|
        invariant Valid(i)
      {
        Step(i);
      }
    }

    // The figures reported from the final account, which agrees with the books `t`.
    method Summarize(ghost t: Tape) returns (summary: Summary)
      requires t.Valid() && t.bars == bars && t.startingCash == config.startingCash
      requires cash == t.Cash(|bars|) && totalCosts == t.Costs(|bars|) && currentUnits == t.Held(|bars|)
      requires turnover == t.Turnover(|bars|) && tradeCount == t.Trades(|bars|)
      ensures summary == SummaryOf(t)
    {
      var start := config.startingCash;
      var endingValue := cash + currentUnits as real * bars[|bars| - 1].close;
      var grossEndingValue := endingValue + totalCosts;
      summary := Summary(start, endingValue, grossEndingValue - start, endingValue - start, tradeCount, turnover);
    }
  }

  // The outcomes in the order in which they are decided.
  lemma RunInOrder(inputs: Inputs, config: Config, now: Time)
    requires inputs.fixture != [] && config.startingCash > 0.0
    ensures
      var bars := WindowBars(inputs, config);
      var result := Run(inputs, config, now);
      if |bars| < 2 then result == Err(TooFewBars)
      else if !SignalSnapshot(inputs.signals, now, BuildCutoff(bars[|bars| - 1].timestamp)).Ordered()
        then result == Err(SignalSnapshotOutOfOrder)
      else if inputs.signals != [] && SafeIds(inputs.signals, config, |inputs.signals|) == {}
        then result == Err(NoTimingSafeSignal)
      else if Benchmarks(bars, config)[1].endingValue <= 0.0 then result == Err(NonPositiveBenchmark)
      else result == Ok(Completed(inputs, config, now))
  {
    hide WindowBars, SignalSnapshot, SafeIds, Benchmarks, Completed;
  }

  lemma Positive(inputs: Inputs, config: Config)
    requires ValidBars(inputs.fixture) && ValidConfig(config)
    ensures inputs.fixture != [] && config.startingCash > 0.0
  {
  }

  /** The whole run: every error in the order it is met, and otherwise the specified report. */
  method RunBacktest(inputs: Inputs, config: Config, now: Time) returns (r: Result<Report, RunError>)
    requires ValidBars(inputs.fixture) && ValidConfig(config)
    ensures r == Run(inputs, config, now)
  {
    hide *;
    Positive(inputs, config);
    RunInOrder(inputs, config, now);
    var bars := WindowBars(inputs, config);
    if |bars| < 2 {
      return Err(TooFewBars);
    }
    var last := BuildCutoff(bars[|bars| - 1].timestamp);
    var signalSnapshot := SignalSnapshot(inputs.signals, now, last);
    if !signalSnapshot.Ordered() {
      return Err(SignalSnapshotOutOfOrder);
    }
    var priceSnapshot := PriceSnapshot(inputs.fixture, now, last);
    var engine := new Engine(inputs, config);
    engine.RunBars();
    engine.BooksAt(|bars|);
    if inputs.signals != [] && engine.safeIds == {} {
      return Err(NoTimingSafeSignal);
    }
    var lastBar := bars[|bars| - 1];
    var benchmarks := Benchmarks(bars, config);
    if benchmarks[1].endingValue <= 0.0 {
      return Err(NonPositiveBenchmark);
    }
    var summary := engine.Summarize(TapeOf(bars, Picks(inputs, config, bars), config));
    var events := engine.events + [BenchmarkEvent(lastBar, benchmarks[0]), BenchmarkEvent(lastBar, benchmarks[1]),
                                   EndEvent(lastBar, engine.currentUnits)];
    CompletedReport(inputs, config, now);
    r := Ok(Report(signalSnapshot, priceSnapshot, engine.decisions, events, summary, benchmarks,
                   engine.leakage, engine.anomalies, last.decisionTime));
  }
}
