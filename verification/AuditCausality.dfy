/**
 No look-ahead in the audit trail: which signals a run has refused, every refusal that does not
 name a feature still unavailable, and the timing anomalies depend on nothing that was not out
 by the bar reached.
 */
module AuditCausality {
  import opened Sequences
  import opened Market
  import opened Timing
  import opened Eligibility
  import opened Audit
  import opened Backtest
  import opened Causality

  // The entry does not report a feature as missing or as available only later.
  predicate Firm(e: Leak) {
    !e.MissingFeature? && !e.FutureFeature?
  }

  function FirmOf(log: seq<Leak>): seq<Leak> {
    Filter(log, Firm)
  }

  lemma FirmConcat(a: seq<Leak>, b: seq<Leak>)
    ensures FirmOf(a + b) == FirmOf(a) + FirmOf(b)
  {
    FilterConcat(a, b, Firm);
  }

  // ---------- One signal ----------

  lemma {:induction false} MissingNotFirm(inputs: Inputs, id: string, features: seq<string>)
    ensures forall e :: e in MissingEntries(inputs, id, features) ==> !Firm(e)
  {
    if features != [] {
      MissingNotFirm(inputs, id, features[1..]);
    }
  }

  lemma {:induction false} FutureNotFirm(inputs: Inputs, id: string, features: seq<string>, t: Time)
    ensures forall e :: e in FutureEntries(inputs, id, features, t) ==> !Firm(e)
  {
    if features != [] {
      FutureNotFirm(inputs, id, features[1..], t);
    }
  }

  lemma FeatureEntriesNotFirm(inputs: Inputs, s: Signal, t: Time)
    ensures FirmOf(FeatureEntries(inputs, s, t)) == []
  {
    MissingNotFirm(inputs, s.Id(), FeatureIds(inputs, s));
    FutureNotFirm(inputs, s.Id(), FeatureIds(inputs, s), t);
    FilterNone(FeatureEntries(inputs, s, t), Firm);
  }

  lemma {:induction false} FirstUnknownSame(ids: seq<string>, a: map<string, ResearchSignal>, b: map<string, ResearchSignal>)
    requires forall x :: x in ids ==> (x in a <==> x in b)
    ensures FirstUnknown(ids, a) == FirstUnknown(ids, b)
  {
    if ids != [] {
      FirstUnknownSame(ids[1..], a, b);
    }
  }

  lemma UnknownAlike(a: Inputs, b: Inputs, config: Config, t: Time, s: Signal)
    requires SameKnowledge(a, b, config, t) && s in a.signals && Visible(config, t, s) && s.Variant?
    ensures FirstUnknown(s.variant.sourceIds, a.researchById) == FirstUnknown(s.variant.sourceIds, b.researchById)
  {
    hide Visible, VisibleSignals, FeatureReady;
    forall x | x in s.variant.sourceIds
      ensures x in a.researchById <==> x in b.researchById
    {
      assert SameSource(a, b, x);
    }
    FirstUnknownSame(s.variant.sourceIds, a.researchById, b.researchById);
  }

  lemma FirmRefusals(a: Inputs, b: Inputs, config: Config, t: Time, now: Time, s: Signal)
    requires SameKnowledge(a, b, config, t) && s in a.signals && Visible(config, t, s)
    ensures FirmOf(Refusals(a, s, now)) == FirmOf(Refusals(b, s, now))
  {
    FeatureEntriesNotFirm(a, s, now);
    FeatureEntriesNotFirm(b, s, now);
    if s.Variant? {
      UnknownAlike(a, b, config, t, s);
    }
    hide SameKnowledge, Visible, FeatureEntries, FirstUnknown, FirmOf, NeedsSource;
  }

  // ---------- One decision ----------

  function FirmPart(inputs: Inputs, config: Config, cutoff: Cutoff, s: Signal): seq<Leak> {
    if Timely(config, s, cutoff) then FirmOf(Refusals(inputs, s, cutoff.decisionTime)) else []
  }

  function FirmParts(inputs: Inputs, config: Config, cutoff: Cutoff, signals: seq<Signal>): seq<Leak> {
    if signals == [] then []
    else FirmParts(inputs, config, cutoff, signals[..|signals| - 1])
         + FirmPart(inputs, config, cutoff, signals[|signals| - 1])
  }

  lemma FirmPartsStep(inputs: Inputs, config: Config, cutoff: Cutoff, before: seq<Signal>, last: Signal)
    ensures FirmParts(inputs, config, cutoff, before + [last])
         == FirmParts(inputs, config, cutoff, before) + FirmPart(inputs, config, cutoff, last)
    ensures before + [] == before
  {
    assert (before + [last])[..|before|] == before;
  }

  lemma RefusalsStep(inputs: Inputs, config: Config, cutoff: Cutoff, j: nat)
    requires j < |inputs.signals|
    ensures FirmOf(TimelyRefusals(inputs, config, cutoff, j + 1))
         == FirmOf(TimelyRefusals(inputs, config, cutoff, j)) + FirmPart(inputs, config, cutoff, inputs.signals[j])
  {
    var s := inputs.signals[j];
    var part := if Timely(config, s, cutoff) then Refusals(inputs, s, cutoff.decisionTime) else [];
    FirmConcat(TimelyRefusals(inputs, config, cutoff, j), part);
    assert FirmOf(part) == FirmPart(inputs, config, cutoff, s);
    hide Timely, Refusals, FirmOf, FirmPart;
  }

  lemma NothingRefused(inputs: Inputs, config: Config, cutoff: Cutoff)
    ensures FirmOf(TimelyRefusals(inputs, config, cutoff, 0)) == FirmParts(inputs, config, cutoff, [])
  {
  }

  lemma {:induction false} TimelyRefusalsFirm(inputs: Inputs, config: Config, cutoff: Cutoff, j: nat)
    requires j <= |inputs.signals|
    ensures FirmOf(TimelyRefusals(inputs, config, cutoff, j)) == FirmParts(inputs, config, cutoff, inputs.signals[..j])
    decreases j
  {
    hide *;
    if j == 0 {
      NothingRefused(inputs, config, cutoff);
      assert inputs.signals[..0] == [];
    } else {
      var i := j - 1;
      TimelyRefusalsFirm(inputs, config, cutoff, i);
      RefusalsStep(inputs, config, cutoff, i);
      assert inputs.signals[..j] == inputs.signals[..i] + [inputs.signals[i]];
      FirmPartsStep(inputs, config, cutoff, inputs.signals[..i], inputs.signals[i]);
      assert i + 1 == j;
    }
  }

  lemma VisibleStep(config: Config, t: Time, before: seq<Signal>, last: Signal)
    ensures VisibleSignals(before + [last], config, t)
         == VisibleSignals(before, config, t) + (if Visible(config, t, last) then [last] else [])
  {
    var visible := (s: Signal) => Visible(config, t, s);
    FilterConcat(before, [last], visible);
    FilterOne(last, visible);
  }

  lemma HiddenLeavesNothing(inputs: Inputs, config: Config, t: Time, now: Time, s: Signal)
    requires now <= t && !Visible(config, t, s)
    ensures FirmPart(inputs, config, BuildCutoff(now), s) == []
  {
  }

  // Signals that were not out by t leave nothing at a decision made by then.
  lemma {:induction false} FirmPartsVisible(inputs: Inputs, config: Config, t: Time, now: Time, signals: seq<Signal>)
    requires now <= t
    ensures FirmParts(inputs, config, BuildCutoff(now), signals)
         == FirmParts(inputs, config, BuildCutoff(now), VisibleSignals(signals, config, t))
    decreases |signals|
  {
    if signals != [] {
      var before, last := signals[..|signals| - 1], signals[|signals| - 1];
      FirmPartsVisible(inputs, config, t, now, before);
      VisibleStep(config, t, before, last);
      assert signals == before + [last];
      hide Visible, VisibleSignals, FirmPart;
      if !Visible(config, t, last) {
        HiddenLeavesNothing(inputs, config, t, now, last);
      }
      FirmPartsStep(inputs, config, BuildCutoff(now), VisibleSignals(before, config, t), last);
    }
  }

  lemma {:induction false} FirmPartsSame(a: Inputs, b: Inputs, config: Config, t: Time, now: Time, signals: seq<Signal>)
    requires SameKnowledge(a, b, config, t)
    requires forall s :: s in signals ==> s in a.signals && Visible(config, t, s)
    ensures FirmParts(a, config, BuildCutoff(now), signals) == FirmParts(b, config, BuildCutoff(now), signals)
    decreases |signals|
  {
    if signals != [] {
      hide SameKnowledge, Visible, Timely, Refusals;
      FirmPartsSame(a, b, config, t, now, signals[..|signals| - 1]);
      FirmRefusals(a, b, config, t, now, signals[|signals| - 1]);
    }
  }

  lemma DecisionEntriesFirm(a: Inputs, b: Inputs, config: Config, t: Time, now: Time)
    requires SameKnowledge(a, b, config, t) && now <= t
    ensures FirmOf(DecisionEntries(a, config, BuildCutoff(now)))
         == FirmOf(DecisionEntries(b, config, BuildCutoff(now)))
  {
    var seen := VisibleSignals(a.signals, config, t);
    assert seen == VisibleSignals(b.signals, config, t);
    FirmPartsSame(a, b, config, t, now, seen);
    EligibleCausal(a, b, config, t, now);
    hide SameKnowledge, VisibleSignals, EligibleSignals;
    FirmDecision(a, config, t, now);
    FirmDecision(b, config, t, now);
  }

  lemma FirmDecision(inputs: Inputs, config: Config, t: Time, now: Time)
    requires now <= t
    ensures
      var cutoff := BuildCutoff(now);
      FirmOf(DecisionEntries(inputs, config, cutoff))
      == FirmParts(inputs, config, cutoff, VisibleSignals(inputs.signals, config, t))
         + FirmOf(if EligibleSignals(inputs, config, cutoff) != [] then [FeatureAvailabilityPassed] else [])
  {
    hide VisibleSignals, EligibleSignals, TimelyRefusals, FirmParts, FirmOf;
    var cutoff := BuildCutoff(now);
    TimelyRefusalsFirm(inputs, config, cutoff, |inputs.signals|);
    assert inputs.signals[..|inputs.signals|] == inputs.signals;
    FirmPartsVisible(inputs, config, t, now, inputs.signals);
    FirmConcat(TimelyRefusals(inputs, config, cutoff, |inputs.signals|),
                 if EligibleSignals(inputs, config, cutoff) != [] then [FeatureAvailabilityPassed] else []);
  }

  // ---------- The whole run ----------

  lemma RunEntriesStep(inputs: Inputs, config: Config, bars: seq<Bar>, k: nat)
    requires k < |bars|
    ensures FirmOf(RunEntries(inputs, config, bars, k + 1))
         == FirmOf(RunEntries(inputs, config, bars, k))
            + FirmOf(DecisionEntries(inputs, config, BuildCutoff(bars[k].timestamp)))
  {
    hide DecisionEntries, FirmOf;
    FirmConcat(RunEntries(inputs, config, bars, k), DecisionEntries(inputs, config, BuildCutoff(bars[k].timestamp)));
  }

  // The same first k bars, none of them after t.
  ghost predicate SharedBars(x: seq<Bar>, y: seq<Bar>, k: nat, t: Time) {
    k <= |x| && k <= |y| && forall i :: 0 <= i < k ==> x[i] == y[i] && x[i].timestamp <= t
  }

  lemma SharedLast(x: seq<Bar>, y: seq<Bar>, i: nat, t: Time)
    requires SharedBars(x, y, i + 1, t)
    ensures SharedBars(x, y, i, t) && i < |x| && i < |y| && x[i] == y[i] && x[i].timestamp <= t
  {
  }

  lemma NoEntries(a: Inputs, b: Inputs, config: Config, x: seq<Bar>, y: seq<Bar>)
    ensures FirmOf(RunEntries(a, config, x, 0)) == FirmOf(RunEntries(b, config, y, 0))
  {
  }

  lemma {:induction false} RunEntriesFirm(a: Inputs, b: Inputs, config: Config, x: seq<Bar>, y: seq<Bar>, t: Time, k: nat)
    requires SameKnowledge(a, b, config, t) && k <= |x| && k <= |y| && SharedBars(x, y, k, t)
    ensures FirmOf(RunEntries(a, config, x, k)) == FirmOf(RunEntries(b, config, y, k))
    decreases k
  {
    hide *;
    if k == 0 {
      NoEntries(a, b, config, x, y);
    } else {
      var i := k - 1;
      assert i + 1 == k;
      SharedLast(x, y, i, t);
      RunEntriesFirm(a, b, config, x, y, t, i);
      DecisionEntriesFirm(a, b, config, t, x[i].timestamp);
      RunEntriesStep(a, config, x, i);
      RunEntriesStep(b, config, y, i);
    }
  }

  lemma LeakageFirm(inputs: Inputs, config: Config, bars: seq<Bar>, k: nat)
    requires |bars| >= 1 && k <= |bars|
    ensures FirmOf(Leakage(inputs, config, bars, k))
         == AppendAllUnique([], FirmOf(InitialEntries(inputs, config, bars))
                                + FirmOf(RunEntries(inputs, config, bars, k)))
  {
    hide InitialEntries, RunEntries, Firm;
    FilterAppendAllUnique([], InitialEntries(inputs, config, bars) + RunEntries(inputs, config, bars, k), Firm);
    FirmConcat(InitialEntries(inputs, config, bars), RunEntries(inputs, config, bars, k));
    assert FirmOf([]) == [];
  }

  // Some entry on record reports that a decision refused the signal.
  ghost predicate Named(log: seq<Leak>, id: string) {
    exists e :: e in log && e.Refuses(id)
  }

  lemma NamedCausal(a: Inputs, b: Inputs, config: Config, x: seq<Bar>, y: seq<Bar>, t: Time, k: nat, id: string)
    requires SameKnowledge(a, b, config, t) && 1 <= |x| && 1 <= |y| && k <= |x| && k <= |y|
    requires forall i :: 0 <= i < k ==> x[i] == y[i] && x[i].timestamp <= t
    requires Named(Leakage(a, config, x, k), id)
    ensures Named(Leakage(b, config, y, k), id)
  {
    hide Leakage, LineageClosed, FeaturesReady, SameKnowledge;
    var e :| e in Leakage(a, config, x, k) && e.Refuses(id);
    RecordedRefusalsHappened(a, config, x, k, e, id);
    var i, s :|
      && 0 <= i < k && s in a.signals && s.Id() == id
      && Timely(config, s, BuildCutoff(x[i].timestamp))
      && !(LineageClosed(a, s) && FeaturesReady(a, s, x[i].timestamp));
    ValidationExact(a, s, x[i].timestamp);
    ValidationExact(b, s, x[i].timestamp);
    ValidationCausal(a, b, config, t, x[i].timestamp, s);
    VisibleInBoth(a, b, config, t, s);
    RefusalsAreRecorded(b, config, y, i, k, s);
  }

  lemma VisibleInBoth(a: Inputs, b: Inputs, config: Config, t: Time, s: Signal)
    requires SameKnowledge(a, b, config, t) && s in a.signals && Visible(config, t, s)
    ensures s in b.signals
  {
    assert s in VisibleSignals(a.signals, config, t);
    assert s in VisibleSignals(b.signals, config, t);
  }

  // ---------- Anomalies ----------

  function UnwindowedSignals(signals: seq<Signal>, config: Config): seq<Signal> {
    Filter(signals, (s: Signal) => Unwindowed(config, s))
  }

  lemma {:induction false} NoteAnomaliesPrefix(anomalies: seq<Anomaly>, signals: seq<Signal>, more: seq<Signal>,
                                               config: Config, j: nat)
    requires j <= |signals|
    ensures NoteAnomalies(anomalies, signals + more, config, j) == NoteAnomalies(anomalies, signals, config, j)
  {
    if j > 0 {
      NoteAnomaliesPrefix(anomalies, signals, more, config, j - 1);
    }
  }

  lemma NoteOneMore(anomalies: seq<Anomaly>, signals: seq<Signal>, last: Signal, config: Config)
    ensures NoteAnomalies(anomalies, signals + [last], config, |signals| + 1)
         == NoteAnomaly(NoteAnomalies(anomalies, signals, config, |signals|), config, last)
  {
    NoteAnomaliesPrefix(anomalies, signals, [last], config, |signals|);
  }

  lemma UnwindowedStep(config: Config, before: seq<Signal>, last: Signal)
    ensures UnwindowedSignals(before + [last], config)
         == if Unwindowed(config, last) then UnwindowedSignals(before, config) + [last]
            else UnwindowedSignals(before, config)
  {
    var unwindowed := (s: Signal) => Unwindowed(config, s);
    FilterConcat(before, [last], unwindowed);
    FilterOne(last, unwindowed);
  }

  lemma WindowedUnnoted(anomalies: seq<Anomaly>, config: Config, s: Signal)
    ensures !Unwindowed(config, s) ==> NoteAnomaly(anomalies, config, s) == anomalies
  {
  }

  // Windowed signals and those not allowed leave the record of anomalies alone.
  lemma {:induction false} NoteAnomaliesFiltered(anomalies: seq<Anomaly>, signals: seq<Signal>, config: Config)
    ensures
      var kept := UnwindowedSignals(signals, config);
      NoteAnomalies(anomalies, signals, config, |signals|) == NoteAnomalies(anomalies, kept, config, |kept|)
    decreases |signals|
  {
    if signals != [] {
      hide *;
      var before, last := signals[..|signals| - 1], signals[|signals| - 1];
      NoteAnomaliesFiltered(anomalies, before, config);
      assert signals == before + [last];
      UnwindowedStep(config, before, last);
      var kept := UnwindowedSignals(before, config);
      NoteOneMore(anomalies, before, last, config);
      NoteOneMore(anomalies, kept, last, config);
      WindowedUnnoted(NoteAnomalies(anomalies, before, config, |before|), config, last);
    }
  }

  lemma {:induction false} AnomaliesCausal(a: seq<Signal>, b: seq<Signal>, config: Config, k: nat)
    requires UnwindowedSignals(a, config) == UnwindowedSignals(b, config)
    ensures Anomalies(a, config, k) == Anomalies(b, config, k)
  {
    if k > 0 {
      AnomaliesCausal(a, b, config, k - 1);
      NoteAnomaliesFiltered(Anomalies(a, config, k - 1), a, config);
      NoteAnomaliesFiltered(Anomalies(b, config, k - 1), b, config);
    }
  }

  lemma LeakageCausal(a: Inputs, b: Inputs, config: Config, x: seq<Bar>, y: seq<Bar>, t: Time, k: nat)
    requires SameKnowledge(a, b, config, t) && 1 <= |x| && 1 <= |y| && k <= |x| && k <= |y|
    requires forall i :: 0 <= i < k ==> x[i] == y[i] && x[i].timestamp <= t
    requires InitialEntries(a, config, x) == InitialEntries(b, config, y)
    ensures
      var r, r' := Leakage(a, config, x, k), Leakage(b, config, y, k);
      && FirmOf(r) == FirmOf(r')
      && forall id: string :: Named(r, id) <==> Named(r', id)
  {
    assert SharedBars(x, y, k, t);
    hide *;
    RunEntriesFirm(a, b, config, x, y, t, k);
    LeakageFirm(a, config, x, k);
    LeakageFirm(b, config, y, k);
    SameKnowledgeSymmetric(a, b, config, t);
    var r, r' := Leakage(a, config, x, k), Leakage(b, config, y, k);
    forall id: string
      ensures Named(r, id) <==> Named(r', id)
    {
      if Named(r, id) {
        NamedCausal(a, b, config, x, y, t, k, id);
      }
      if Named(r', id) {
        NamedCausal(b, a, config, y, x, t, k, id);
      }
    }
  }

  /**
   Two worlds with the same past, whose runs open with the same checks, have after bar k the
   same leakage entries in the same order, apart from those naming a feature that was not yet
   available, and have refused the same signals. With the same allowed signals without a window
   they also have the same anomalies.
   */
  lemma NoLookAheadInAudit(a: Inputs, b: Inputs, config: Config, k: nat)
    requires Increasing(a.fixture) && Priced(a.fixture) && SamePast(a, b, config, k)
    requires InitialEntries(a, config, WindowBars(a, config)) == InitialEntries(b, config, WindowBars(b, config))
    ensures
      var r, r' := Leakage(a, config, WindowBars(a, config), k + 1), Leakage(b, config, WindowBars(b, config), k + 1);
      && FirmOf(r) == FirmOf(r')
      && forall id: string :: Named(r, id) <==> Named(r', id)
    ensures UnwindowedSignals(a.signals, config) == UnwindowedSignals(b.signals, config) ==>
              Anomalies(a.signals, config, k + 1) == Anomalies(b.signals, config, k + 1)
  {
    hide *;
    PastBars(a, b, config, k);
    var x, y := WindowBars(a, config), WindowBars(b, config);
    LeakageCausal(a, b, config, x, y, x[k].timestamp, k + 1);
    if UnwindowedSignals(a.signals, config) == UnwindowedSignals(b.signals, config) {
      AnomaliesCausal(a.signals, b.signals, config, k + 1);
    }
  }
}
