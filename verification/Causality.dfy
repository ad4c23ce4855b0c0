/**
 Information: what a run has done by bar k depends on nothing that was not out by bar k,
 cutting the window short changes only what no longer fits, and every decision rests on
 signals and features that were already there.
 */
module Causality {
  import opened Wrappers
  import opened Sequences
  import opened Market
  import opened Timing
  import opened Eligibility
  import opened Schedule
  import opened Ledger
  import opened Journal
  import opened Machine
  import opened Audit
  import opened Snapshots
  import opened Backtest

  // ---------- No look-ahead ----------

  /**
   Two worlds with windows of the same length, the same bars through bar k, and the same
   knowledge at bar k's decision: signals that could not have been seen by then, features not
   available by then, and all later prices are unconstrained.
   */
  ghost predicate SamePast(a: Inputs, b: Inputs, config: Config, k: nat) {
    var x, y := WindowBars(a, config), WindowBars(b, config);
    && k < |x| == |y|
    && (forall i :: 0 <= i <= k ==> x[i] == y[i])
    && SameKnowledge(a, b, config, x[k].timestamp)
  }

  ghost function StateAfter(inputs: Inputs, config: Config, k: nat): State
    requires k <= |WindowBars(inputs, config)| && |WindowBars(inputs, config)| >= 1
  {
    var bars := WindowBars(inputs, config);
    Reached(bars, Picks(inputs, config, bars), config, k)
  }

  lemma PastBars(a: Inputs, b: Inputs, config: Config, k: nat)
    requires Increasing(a.fixture) && Priced(a.fixture) && SamePast(a, b, config, k)
    ensures Increasing(WindowBars(a, config))
    ensures
      var x, y := WindowBars(a, config), WindowBars(b, config);
      && k < |x| == |y| && SameKnowledge(a, b, config, x[k].timestamp)
      && forall i :: 0 <= i < k + 1 ==> x[i] == y[i] && x[i].timestamp <= x[k].timestamp
  {
    hide SameKnowledge, WindowBars;
    WindowBarsValid(a, config);
    var x := WindowBars(a, config);
    forall i | 0 <= i < k + 1
      ensures x[i].timestamp <= x[k].timestamp
    {
      assert i < k ==> x[i].timestamp < x[k].timestamp;
    }
  }

  lemma StateAfterIs(inputs: Inputs, config: Config, k: nat)
    requires k <= |WindowBars(inputs, config)| && |WindowBars(inputs, config)| >= 1
    ensures
      var bars := WindowBars(inputs, config);
      StateAfter(inputs, config, k) == Reached(bars, Picks(inputs, config, bars), config, k)
  {
  }

  lemma PicksCausal(a: Inputs, b: Inputs, config: Config, k: nat, i: nat)
    requires SamePast(a, b, config, k) && i <= k
    requires Increasing(WindowBars(a, config))
    ensures Picks(a, config, WindowBars(a, config))[i] == Picks(b, config, WindowBars(b, config))[i]
  {
    var x := WindowBars(a, config);
    assert i < k ==> x[i].timestamp < x[k].timestamp;
    SelectionCausal(a, b, config, x[k].timestamp, x[i].timestamp);
  }

  lemma {:induction false} MachineCausal(
    x: seq<Bar>, y: seq<Bar>, p: seq<Option<Signal>>, q: seq<Option<Signal>>, config: Config, k: nat)
    requires |x| == |p| == |y| == |q| >= 1 && k <= |x|
    requires x[0] == y[0] && forall i :: 0 <= i < k ==> x[i] == y[i] && p[i] == q[i]
    ensures Reached(x, p, config, k) == Reached(y, q, config, k)
  {
    if k > 0 {
      MachineCausal(x, y, p, q, config, k - 1);
    }
  }

  /**
   No look-ahead: after bar k the whole state of the simulator is the same in both worlds:
   position, cash, costs, turnover, pending fills, decisions and events.
   */
  lemma NoLookAhead(a: Inputs, b: Inputs, config: Config, k: nat)
    requires Increasing(a.fixture) && Priced(a.fixture) && SamePast(a, b, config, k)
    ensures StateAfter(a, config, k + 1) == StateAfter(b, config, k + 1)
  {
    hide *;
    PastBars(a, b, config, k);
    var x, y := WindowBars(a, config), WindowBars(b, config);
    var p, q := Picks(a, config, x), Picks(b, config, y);
    forall i | 0 <= i < k + 1
      ensures p[i] == q[i]
    {
      PicksCausal(a, b, config, k, i);
    }
    MachineCausal(x, y, p, q, config, k + 1);
    StateAfterIs(a, config, k + 1);
    StateAfterIs(b, config, k + 1);
  }

  // What a completed report had already recorded after k bars.
  lemma ReportPrefix(inputs: Inputs, config: Config, now: Time, k: nat)
    requires inputs.fixture != [] && config.startingCash > 0.0
    requires 1 <= |WindowBars(inputs, config)| && k <= |WindowBars(inputs, config)|
    ensures
      var report, s := Completed(inputs, config, now), StateAfter(inputs, config, k);
      && |s.decisions| == k && s.decisions <= report.decisions
      && s.events <= report.events
  {
    hide WindowBars, Picks, DecisionAt, Proposals, Leakage, Anomalies, SignalSnapshot, PriceSnapshot, SummaryOf;
    var bars := WindowBars(inputs, config);
    var picks := Picks(inputs, config, bars);
    MachineRefinesSchedule(bars, picks, config, k);
    LogGrows(bars, picks, config, k, |bars|);
  }

  /** In completed runs: the first k+1 decisions agree, and so does the log up to that bar. */
  lemma NoLookAheadInReports(a: Inputs, b: Inputs, config: Config, now: Time, later: Time, k: nat)
    requires ValidBars(a.fixture) && b.fixture != [] && ValidConfig(config) && SamePast(a, b, config, k)
    requires EnoughBars(a, config)
    ensures
      var r, r' := Completed(a, config, now), Completed(b, config, later);
      var s := StateAfter(a, config, k + 1);
      && k < |r.decisions| && k < |r'.decisions|
      && r.decisions[..k + 1] == r'.decisions[..k + 1] == s.decisions
      && s.events <= r.events && s.events <= r'.events
  {
    hide Completed, StateAfter, WindowBars, SameKnowledge, SignalSnapshot, SafeIds, Benchmarks;
    NoLookAhead(a, b, config, k);
    ReportPrefix(a, config, now, k + 1);
    ReportPrefix(b, config, later, k + 1);
  }

  // ---------- Truncating the window ----------

  lemma PicksTruncated(short: Inputs, long: Inputs, config: Config, config': Config)
    requires short == long.(fixture := short.fixture)
    requires config' == config.(testStart := config'.testStart, testEnd := config'.testEnd)
    requires WindowBars(short, config) <= WindowBars(long, config')
    ensures Picks(short, config, WindowBars(short, config)) <= Picks(long, config', WindowBars(long, config'))
  {
    var x, y := WindowBars(short, config), WindowBars(long, config');
    var p, q := Picks(short, config, x), Picks(long, config', y);
    forall i | 0 <= i < |p|
      ensures p[i] == q[i]
    {
      var cutoff := BuildCutoff(x[i].timestamp);
      assert x[i] == y[i];
      SelectionIgnores(short, long, config, config', cutoff);
    }
  }

  // The choice reads the signals, the lookups, the allowlist and the buffer, nothing else.
  lemma SelectionIgnores(a: Inputs, b: Inputs, config: Config, config': Config, cutoff: Cutoff)
    requires a == b.(fixture := a.fixture)
    requires config.allowlist == config'.allowlist && config.bufferMinutes == config'.bufferMinutes
    ensures Select(a, config, cutoff) == Select(b, config', cutoff)
  {
    var inA := (s: Signal) => Eligible(a, config, cutoff, s);
    var inB := (s: Signal) => Eligible(b, config', cutoff, s);
    forall s: Signal
      ensures inA(s) == inB(s)
    {
      RefusalsIgnoreSignals(a, b, s, cutoff.decisionTime);
    }
    FilterSame(a.signals, inA, inB);
    assert EligibleSignals(a, config, cutoff) == Filter(a.signals, inA);
    assert EligibleSignals(b, config', cutoff) == Filter(b.signals, inB);
  }

  lemma TapeTruncated(short: seq<Bar>, long: seq<Bar>, p: seq<Option<Signal>>, q: seq<Option<Signal>>,
                      config: Config, k: nat)
    requires |short| == |p| >= 1 && |long| == |q| && short <= long && p <= q && k <= |short|
    ensures
      var s, l := TapeOf(short, p, config), TapeOf(long, q, config);
      && s.Held(k) == l.Held(k) && s.Cash(k) == l.Cash(k) && s.Costs(k) == l.Costs(k)
      && s.Turnover(k) == l.Turnover(k) && s.Trades(k) == l.Trades(k)
  {
    var s, l := TapeOf(short, p, config), TapeOf(long, q, config);
    forall i: nat | i < |short|
      ensures s.FilledAt(i) == l.FilledAt(i)
      ensures s.FillQuantity(i) == l.FillQuantity(i)
    {
      ScheduleTruncated(s.proposals, l.proposals, config.lag, i);
      if i >= config.lag {
        ScheduleTruncated(s.proposals, l.proposals, config.lag, i - config.lag);
      }
      if i > 0 {
        ScheduleTruncated(s.proposals, l.proposals, config.lag, i - 1);
      }
    }
    if k > 0 {
      ScheduleTruncated(s.proposals, l.proposals, config.lag, k - 1);
    }
    LedgerCausal(s, l, k);
  }

  lemma DecisionTruncated(short: seq<Bar>, long: seq<Bar>, p: seq<Option<Signal>>, q: seq<Option<Signal>>,
                          lag: Lag, i: nat)
    requires |short| == |p| && |long| == |q| && short <= long && p <= q && i < |short|
    ensures DecisionAt(short, p, lag, i) != DecisionAt(long, q, lag, i)
       <==> Skipped(Proposals(p), lag, i) && !Skipped(Proposals(q), lag, i)
  {
    ScheduleTruncated(Proposals(p), Proposals(q), lag, i);
    assert short[i] == long[i] && p[i] == q[i];
    assert Proposals(p)[i] == Proposals(q)[i];
  }

  /**
   Ending the window earlier leaves every position, fill and cash figure inside the shorter
   window as it was. A decision changes exactly when it asks for a move that the longer
   window can still execute and the shorter one cannot, so only the last `lag` can change.
   */
  lemma TruncationEffect(short: Inputs, long: Inputs, config: Config, config': Config, k: nat, i: nat)
    requires short == long.(fixture := short.fixture)
    requires config' == config.(testStart := config'.testStart, testEnd := config'.testEnd)
    requires WindowBars(short, config) <= WindowBars(long, config')
    requires k <= |WindowBars(short, config)| && i < |WindowBars(short, config)|
    ensures
      var s, l := RunTape(short, config), RunTape(long, config');
      && s.Held(k) == l.Held(k) && s.Cash(k) == l.Cash(k) && s.Costs(k) == l.Costs(k)
      && s.Turnover(k) == l.Turnover(k) && s.Trades(k) == l.Trades(k)
    ensures
      var x, y := WindowBars(short, config), WindowBars(long, config');
      var p, q := Picks(short, config, x), Picks(long, config', y);
      var lag := config.lag;
      && (DecisionAt(x, p, lag, i) != DecisionAt(y, q, lag, i)
          <==> Skipped(Proposals(p), lag, i) && !Skipped(Proposals(q), lag, i))
      && (i + lag < |x| ==> DecisionAt(x, p, lag, i) == DecisionAt(y, q, lag, i))
  {
    hide WindowBars, DecisionAt;
    PicksTruncated(short, long, config, config');
    var x, y := WindowBars(short, config), WindowBars(long, config');
    var p, q := Picks(short, config, x), Picks(long, config', y);
    TapeTruncated(x, y, p, q, config, k);
    assert TapeOf(y, q, config) == TapeOf(y, q, config');
    DecisionTruncated(x, y, p, q, config.lag, i);
  }

  // ---------- Along one run ----------

  // A pick made at t rests on what was out by then.
  lemma PickLooksBack(inputs: Inputs, config: Config, t: Time)
    requires forall s :: s in inputs.signals && s.Window().Some? ==> s.EffectiveAt() == s.Window().value.availableFrom
    ensures
      var pick := Select(inputs, config, BuildCutoff(t));
      pick.Some? ==>
        && pick.value in inputs.signals && Allowed(config, pick.value) && LineageClosed(inputs, pick.value)
        && pick.value.EffectiveAt() + config.Buffer() <= BuildCutoff(t).decisionTime
        && FeaturesReady(inputs, pick.value, BuildCutoff(t).decisionTime)
  {
    var pick := Select(inputs, config, BuildCutoff(t));
    SelectionWins(inputs, config, BuildCutoff(t));
    hide Select, LineageClosed, FeaturesReady, Refusals;
    if pick.Some? {
      ValidationExact(inputs, pick.value, t);
    }
  }

  lemma TargetOrSkip(bars: seq<Bar>, picks: seq<Option<Signal>>, lag: Lag, i: nat)
    requires i < |bars| == |picks|
    ensures
      var d := DecisionAt(bars, picks, lag, i);
      d.action.SkipSignal? || d.targetUnits == Proposal(picks[i])
  {
    hide Position;
  }

  lemma CompletedDecision(inputs: Inputs, config: Config, now: Time, i: nat)
    requires ValidBars(inputs.fixture) && ValidConfig(config) && EnoughBars(inputs, config)
    requires i < |Completed(inputs, config, now).decisions|
    ensures i < |WindowBars(inputs, config)|
    ensures
      var d, t := Completed(inputs, config, now).decisions[i], WindowBars(inputs, config)[i].timestamp;
      var pick := Select(inputs, config, BuildCutoff(t));
      && d.cutoff == BuildCutoff(t)
      && d.signalId == (if pick.Some? then Some(pick.value.Id()) else None)
      && d.signalEffectiveAt == (if pick.Some? then Some(pick.value.EffectiveAt()) else None)
      && (d.action.SkipSignal? || d.targetUnits == Proposal(pick))
      && d.id == DecisionId(t, if pick.Some? then BySignal(pick.value.Id()) else ByAction(d.action))
  {
    var bars := WindowBars(inputs, config);
    TargetOrSkip(bars, Picks(inputs, config, bars), config.lag, i);
    hide WindowBars, Select, Proposals, Proposal, Leakage, Anomalies, FullLog, SafeIds, SummaryOf, ActionAt, Target;
  }

  /**
   The temporal rules on record: in a completed run every decision that names a signal took it
   from an allowed, lineage-closed signal that was effective, buffer included, by the decision
   time, and whose features were all available by then. (Signals with a window become
   effective when it opens, as their schema requires.)
   */
  lemma DecisionsLookBack(inputs: Inputs, config: Config, now: Time, i: nat)
    requires ValidBars(inputs.fixture) && ValidConfig(config) && EnoughBars(inputs, config)
    requires forall s :: s in inputs.signals && s.Window().Some? ==> s.EffectiveAt() == s.Window().value.availableFrom
    requires i < |Completed(inputs, config, now).decisions|
    ensures
      var d := Completed(inputs, config, now).decisions[i];
      d.signalId.Some? ==>
        exists s :: s in inputs.signals
          && s.Id() == d.signalId.value && d.signalEffectiveAt == Some(s.EffectiveAt())
          && Allowed(config, s) && LineageClosed(inputs, s)
          && s.EffectiveAt() + config.Buffer() <= d.cutoff.decisionTime
          && FeaturesReady(inputs, s, d.cutoff.decisionTime)
  {
    hide *;
    CompletedDecision(inputs, config, now, i);
    PickLooksBack(inputs, config, WindowBars(inputs, config)[i].timestamp);
  }

  /**
   What drives each decision of a completed run, in the terms of the inputs alone. It names a
   qualifying signal that no other qualifying one surpasses, or none when none qualifies; and
   unless it is skipped it records one unit long for a positive signal, one short for a negative
   one, and none otherwise. It is identified by its time and that signal, or else its action.
   */
  lemma DecisionsFollowBest(inputs: Inputs, config: Config, now: Time, i: nat)
    requires ValidBars(inputs.fixture) && ValidConfig(config) && EnoughBars(inputs, config)
    requires i < |Completed(inputs, config, now).decisions|
    ensures
      var d := Completed(inputs, config, now).decisions[i];
      && d.id == DecisionId(d.cutoff.decisionTime,
                            if d.signalId.Some? then BySignal(d.signalId.value) else ByAction(d.action))
      && (d.signalId.None? ==>
            && (forall s :: !Qualifies(inputs, config, d.cutoff, s))
            && (d.action.SkipSignal? || d.targetUnits == 0))
      && (d.signalId.Some? ==>
            exists best :: Qualifies(inputs, config, d.cutoff, best)
              && (forall s :: Qualifies(inputs, config, d.cutoff, s) ==> NoStronger(s, best))
              && d.signalId.value == best.Id() && d.signalEffectiveAt == Some(best.EffectiveAt())
              && (|| d.action.SkipSignal?
                  || d.targetUnits
                     == (if best.Stance() == Positive then 1 else if best.Stance() == Negative then -1 else 0)))
  {
    hide *;
    CompletedDecision(inputs, config, now, i);
    BestPick(inputs, config, WindowBars(inputs, config)[i].timestamp);
    CutoffExact(WindowBars(inputs, config)[i].timestamp);
  }

  lemma BestPick(inputs: Inputs, config: Config, t: Time)
    ensures
      var pick, cutoff := Select(inputs, config, BuildCutoff(t)), BuildCutoff(t);
      && (pick.None? ==> Proposal(pick) == 0 && forall s :: !Qualifies(inputs, config, cutoff, s))
      && (pick.Some? ==>
            && Qualifies(inputs, config, cutoff, pick.value)
            && (forall s :: Qualifies(inputs, config, cutoff, s) ==> NoStronger(s, pick.value))
            && Proposal(pick)
               == (if pick.value.Stance() == Positive then 1 else if pick.value.Stance() == Negative then -1 else 0))
  {
    SelectionExact(inputs, config, BuildCutoff(t));
    hide Select, Qualifies;
  }

  lemma DecisionPerBar(inputs: Inputs, config: Config, now: Time)
    requires ValidBars(inputs.fixture) && ValidConfig(config) && EnoughBars(inputs, config)
    ensures |Completed(inputs, config, now).decisions| == |WindowBars(inputs, config)|
  {
    hide WindowBars, Picks, Leakage, Anomalies, FullLog, SummaryOf, SignalSnapshot, PriceSnapshot, Benchmarks;
  }

  lemma WindowStretch(inputs: Inputs, config: Config) returns (low: nat, high: nat)
    requires ValidBars(inputs.fixture)
    ensures inputs.fixture != [] && low <= high <= |inputs.fixture| && |WindowBars(inputs, config)| == high - low
    ensures forall i :: 0 <= i < high - low ==> WindowBars(inputs, config)[i] == inputs.fixture[low + i]
    ensures forall k :: 0 <= k < |inputs.fixture| ==>
              (low <= k < high <==> config.testStart * 86_400_000_000 <= inputs.fixture[k].timestamp
                                    < (config.testEnd + 1) * 86_400_000_000)
  {
    low, high := BarsBetweenContiguous(inputs.fixture, config.testStart, config.testEnd);
    hide BarsBetween;
  }

  /**
   The window of a completed run: there are as many decisions as fixture bars from the start of
   the first test day to the end of the last, the bars are consecutive in the fixture, and each
   decision is made at the close of its bar.
   */
  lemma ReportWindow(inputs: Inputs, config: Config, now: Time) returns (low: nat, high: nat)
    requires ValidBars(inputs.fixture) && ValidConfig(config) && EnoughBars(inputs, config)
    ensures low <= high <= |inputs.fixture|
    ensures forall k :: 0 <= k < |inputs.fixture| ==>
              (low <= k < high <==> config.testStart * 86_400_000_000 <= inputs.fixture[k].timestamp
                                    < (config.testEnd + 1) * 86_400_000_000)
    ensures
      var decisions := Completed(inputs, config, now).decisions;
      && |decisions| == high - low
      && forall i :: 0 <= i < |decisions| ==>
           decisions[i].cutoff == Cutoff(inputs.fixture[low + i].timestamp, inputs.fixture[low + i].timestamp)
  {
    low, high := WindowStretch(inputs, config);
    hide *;
    DecisionPerBar(inputs, config, now);
    forall i | 0 <= i < high - low
      ensures Completed(inputs, config, now).decisions[i].cutoff
           == Cutoff(inputs.fixture[low + i].timestamp, inputs.fixture[low + i].timestamp)
    {
      CompletedDecision(inputs, config, now, i);
      CutoffExact(inputs.fixture[low + i].timestamp);
    }
  }

  /**
   When no window ever closes, as for all variant signals, a run never drops back: once some
   signal has been picked, every later pick ranks at least as high, so it is never an older one.
   */
  lemma PicksAdvance(inputs: Inputs, config: Config, bars: seq<Bar>, i: nat, j: nat)
    requires Increasing(bars) && i <= j < |bars|
    requires forall s :: s in inputs.signals && s.Window().Some? ==> s.Window().value.availableUntil.None?
    requires Picks(inputs, config, bars)[i].Some?
    ensures Picks(inputs, config, bars)[j].Some?
    ensures NoStronger(Picks(inputs, config, bars)[i].value, Picks(inputs, config, bars)[j].value)
    ensures Picks(inputs, config, bars)[j].value.EffectiveAt() >= Picks(inputs, config, bars)[i].value.EffectiveAt()
  {
    hide Select, Eligible;
    var chosen := Picks(inputs, config, bars)[i].value;
    SelectionWins(inputs, config, BuildCutoff(bars[i].timestamp));
    assert i < j ==> bars[i].timestamp < bars[j].timestamp;
    SelectionAdvances(inputs, config, bars[i].timestamp, bars[j].timestamp, chosen);
  }
}
